/** The template check of `handlers/webhook/serviceconfig_create_or_update.go`: a config is rendered
    against a dummy site (`apis/site/v1/stagingsite_helpers.go:46-72`) when it is admitted, and
    against real sites when they are reconciled. */
module TemplateAdmission {
  import opened Jobs
  import opened Apis
  import opened Names
  import opened Template
  import opened TemplateValues

  const NEVER := TimeInterval(true, 0, 0, 0)

  function DummySite(serviceName: string): SiteSpec {
    SiteSpec("dummy", "dummy", "dummy", "dummy", false, NEVER, NEVER, false, None,
             map[serviceName := SiteService("latest", "", "", "", "master", map[])], false)
  }

  /** The handler the webhook validates with: the submitted config replaces the stored one. */
  function DummyHandler(name: string, config: ServiceConfig, namespace: string, stored: map<string, ServiceConfig>,
                        mysql: map<string, MysqlConfig>, mongo: map<string, MongoConfig>,
                            redis: map<string, RedisConfig>): Handler {
    Handler("dummy", namespace, DummySite(name), map[], name, config, stored[name := config], mysql, mongo, redis)
  }

  const INGRESS_KEY := "ingress.serviceName"

  ghost predicate Covers(text: Option<string>, keys: set<string>) {
    text.Some? ==> IsWellFormed(text.value) && Wanted(text.value) <= keys
  }

  ghost predicate CoversMap(entries: map<string, string>, keys: set<string>) {
    forall k | k in entries :: IsWellFormed(entries[k]) && Wanted(entries[k]) <= keys
  }

  /** Every text of the config asks only for the given keys, the ingress also for `ingressKeys`. */
  ghost predicate Resolves(config: ServiceConfig, keys: set<string>, ingressKeys: set<string>) {
    && Covers(config.dbInit, keys) && Covers(config.migration, keys) && Covers(config.backup, keys)
    && Covers(Some(config.deployment), keys) && Covers(config.service, keys)
    && Covers(config.ingress, keys + ingressKeys)
    && forall n | n in config.configMaps :: CoversMap(config.configMaps[n], keys)
  }

  ghost predicate IsWellFormedText(text: Option<string>) {
    text.Some? ==> IsWellFormed(text.value)
  }

  ghost predicate HasWellFormedTexts(config: ServiceConfig) {
    && IsWellFormedText(config.dbInit) && IsWellFormedText(config.migration) && IsWellFormedText(config.backup)
    && IsWellFormed(config.deployment) && IsWellFormedText(config.service) && IsWellFormedText(config.ingress)
    && forall n | n in config.configMaps :: AllWellFormed(config.configMaps[n])
  }

  /** The values a webhook call makes available for the ingress besides the site's own. */
  function IngressValues(config: ServiceConfig): map<string, string> {
    if config.service.Some? then map[INGRESS_KEY := "dummy"] else map[]
  }

  method ValidateText(text: Option<string>, templates: seq<map<string, string>>) returns (ok: bool)
    ensures IsWellFormedText(text) && AllPlain(templates) ==> (ok <==> Covers(text, Bind(templates).Keys))
  {
    if text.None? {
      return true;
    }
    var resolved, _ := ReplaceTemplateVariablesInSpec(text.value, templates);
    ok := resolved;
  }

  /** The chain of checks; the first failing one rejects the config. */
  method ValidateTemplates(config: ServiceConfig, values: map<string, string>) returns (ok: bool)
    ensures HasWellFormedTexts(config) && ArePlain(values) ==>
              (ok <==> Resolves(config, values.Keys, IngressValues(config).Keys))
  {
    ghost var good := HasWellFormedTexts(config) && ArePlain(values);
    OneGetter(values);
    var templates := [values];
    hide Bind, Covers;
    ok := ValidateText(config.dbInit, templates);
    if !ok { return; }
    ok := ValidateText(config.migration, templates);
    if !ok { return; }
    ok := ValidateText(config.backup, templates);
    if !ok { return; }
    ok := ValidateText(Some(config.deployment), templates);
    if !ok { return; }
    ok := ValidateText(config.service, templates);
    if !ok { return; }
    TwoGetters(values, IngressValues(config));
    ok := ValidateText(config.ingress, [values, IngressValues(config)]);
    if !ok { return; }
    var names := config.configMaps.Keys;
    while names != {}
      invariant names <= config.configMaps.Keys
      invariant good ==> forall n | n in config.configMaps.Keys - names :: CoversMap(config.configMaps[n], values.Keys)
    {
      var n :| n in names;
      var resolved, _ := ReplaceTemplateVariablesInStringMap(config.configMaps[n], templates);
      ok := resolved;
      if good {
        assert ok <==> CoversMap(config.configMaps[n], values.Keys) by {
          assert forall k | k in config.configMaps[n] ::
              EntryResolves(config.configMaps[n], k, Bind(templates)) <==>
                Wanted(config.configMaps[n][k]) <= values.Keys;
        }
      }
      if !ok { return; }
      names := names - {n};
    }
    ok := true;
  }

  lemma OneGetter(values: map<string, string>)
    ensures Bind([values]) == values
    ensures ArePlain(values) ==> AllPlain([values])
  {
    assert [values][..0] == [];
  }

  lemma TwoGetters(values: map<string, string>, more: map<string, string>)
    ensures Bind([values, more]).Keys == values.Keys + more.Keys
    ensures ArePlain(values) && ArePlain(more) ==> AllPlain([values, more])
  {
    OneGetter(values);
    assert [values, more][..1] == [values];
  }

  // What admission promises about real sites

  /** The environments a service names in the dummy still resolve to something for the site. */
  ghost predicate KeepsEnvironments(dummy: ServiceConfig, actual: ServiceConfig, service: SiteService) {
    && (dummy.defaultMysql != "" ==> Environment(service.mysqlEnvironment, actual.defaultMysql) != "")
    && (dummy.defaultMongo != "" ==> Environment(service.mongoEnvironment, actual.defaultMongo) != "")
    && (dummy.defaultRedis != "" ==> Environment(service.redisEnvironment, actual.defaultRedis) != "")
  }

  /** Every service config known at admission is still there, and where it had a default environment
      it still has one, or the site names its own. */
  ghost predicate KeepsServices(dummy: map<string, ServiceConfig>, actual: Handler) {
    forall n | n in dummy ::
      && n in actual.serviceConfigs
      && KeepsEnvironments(dummy[n], actual.serviceConfigs[n], Lookup(actual.spec.services, n, NO_SERVICE))
  }

  lemma ServiceKeyOf(md5: string -> string, h: Handler, n: string, k: string)
    requires IsDigest(md5) && IsServiceKey(k) && ServiceKey(n, k) in Keys(md5, h)
    ensures n in h.serviceConfigs && k in ServiceValues(md5, h, n)
  {
    hide ServiceValues, SiteValues;
    var key := ServiceKey(n, k);
    PrefixedGroups(n, k);
    if key in SiteValues(h) {
      SiteValuesGroup(h, key);
    }
    forall m ensures Group("site.configmap." + m) == 1 && Group("site.custom." + m) == 2 {
      PrefixedGroups(m, k);
    }
    var m, j :| m in h.serviceConfigs && j in ServiceValues(md5, h, m) && ServiceKey(m, j) == key;
    ServiceValuesKeys(md5, h, m, j);
    ServiceKeysAreInjective(n, k, m, j);
  }

  // Which database keys a service has

  function CommonKeys(): set<string> {
    {"database.username", "database.name", "database.password", "database.redis.database", "database.initSource"}
  }

  function MysqlKeys(): set<string> { {"database.mysql.host", "database.mysql.port"} }

  function MongoKeys(): set<string> {
    {"database.mongo.host1", "database.mongo.host2", "database.mongo.host3", "database.mongo.port"}
  }

  function RedisKeys(): set<string> {
    {"database.redis.scheme", "database.redis.host", "database.redis.port", "database.redis.password"}
  }

  lemma CommonValuesKeys(h: Handler, status: ServiceStatus, service: SiteService)
    ensures CommonValues(h, status, service).Keys == CommonKeys()
  {
  }

  lemma MysqlValuesKeys(h: Handler, environment: string)
    ensures MysqlValues(h, environment).Keys == if environment == "" then {} else MysqlKeys()
  {
  }

  lemma MongoValuesKeys(h: Handler, environment: string)
    ensures MongoValues(h, environment).Keys == if environment == "" then {} else MongoKeys()
  {
  }

  lemma RedisValuesKeys(h: Handler, environment: string)
    ensures RedisValues(h, environment).Keys == if environment == "" then {} else RedisKeys()
  {
  }

  function KeySet(mysql: bool, mongo: bool, redis: bool): set<string> {
    CommonKeys() + (if mysql then MysqlKeys() else {}) + (if mongo then MongoKeys() else {})
        + (if redis then RedisKeys() else {})
  }

  /** The position of `host` or `port` tells the databases apart. */
  lemma KeysDiffer()
    ensures "clusterUrl" !in CommonKeys() + MysqlKeys() + MongoKeys() + RedisKeys()
    ensures "database.mysql.host" in MysqlKeys() && "database.mysql.host" !in CommonKeys() + MongoKeys() + RedisKeys()
    ensures "database.mongo.port" in MongoKeys() && "database.mongo.port" !in CommonKeys() + MysqlKeys() + RedisKeys()
    ensures "database.redis.host" in RedisKeys() && "database.redis.host" !in CommonKeys() + MysqlKeys() + MongoKeys()
  {
  }

  lemma KeySetContained(m1: bool, g1: bool, r1: bool, m2: bool, g2: bool, r2: bool)
    ensures KeySet(m1, g1, r1) + {"clusterUrl"} <= KeySet(m2, g2, r2) + {"clusterUrl"}
        <==> (m1 ==> m2) && (g1 ==> g2) && (r1 ==> r2)
  {
    KeysDiffer();
    hide CommonKeys, MysqlKeys, MongoKeys, RedisKeys;
    var a, b := KeySet(m1, g1, r1), KeySet(m2, g2, r2);
    assert "database.mysql.host" in b <==> m2;
    assert "database.mongo.port" in b <==> g2;
    assert "database.redis.host" in b <==> r2;
    assert "database.mysql.host" in a <==> m1;
    assert "database.mongo.port" in a <==> g1;
    assert "database.redis.host" in a <==> r1;
    assert "clusterUrl" !in a;
  }

  lemma DatabaseKeysOf(h: Handler, name: string, config: ServiceConfig)
    ensures var service := Lookup(h.spec.services, name, NO_SERVICE);
            DatabaseValues(h, name, config).Keys ==
              KeySet(Environment(service.mysqlEnvironment, config.defaultMysql) != "",
                     Environment(service.mongoEnvironment, config.defaultMongo) != "",
                     Environment(service.redisEnvironment, config.defaultRedis) != "")
  {
    hide CommonKeys, MysqlKeys, MongoKeys, RedisKeys, CommonValues, MysqlValues, MongoValues, RedisValues, Environment;
    var service := Lookup(h.spec.services, name, NO_SERVICE);
    CommonValuesKeys(h, Lookup(h.statuses, name, NO_STATUS), service);
    MysqlValuesKeys(h, Environment(service.mysqlEnvironment, config.defaultMysql));
    MongoValuesKeys(h, Environment(service.mongoEnvironment, config.defaultMongo));
    RedisValuesKeys(h, Environment(service.redisEnvironment, config.defaultRedis));
  }

  lemma ServiceValuesKeySet(md5: string -> string, h: Handler, n: string)
    requires IsDigest(md5) && n in h.serviceConfigs
    ensures ServiceValues(md5, h, n).Keys == DatabaseValues(h, n, h.serviceConfigs[n]).Keys + {"clusterUrl"}
  {
    hide DatabaseValues, ServiceUrl;
  }

  lemma ServiceValuesContained(md5: string -> string, dummy: Handler, actual: Handler, n: string)
    requires IsDigest(md5) && n in dummy.serviceConfigs && n in actual.serviceConfigs
    requires HasNoEnvironments(dummy, n)
    ensures ServiceValues(md5, dummy, n).Keys <= ServiceValues(md5, actual, n).Keys <==>
            KeepsEnvironments(dummy.serviceConfigs[n], actual.serviceConfigs[n],
                Lookup(actual.spec.services, n, NO_SERVICE))
  {
    var d, a := dummy.serviceConfigs[n], actual.serviceConfigs[n];
    var service := Lookup(actual.spec.services, n, NO_SERVICE);
    hide DatabaseValues, KeySet, ServiceValues;
    ServiceValuesKeySet(md5, dummy, n);
    ServiceValuesKeySet(md5, actual, n);
    DatabaseKeysOf(dummy, n, d);
    DatabaseKeysOf(actual, n, a);
    KeySetContained(d.defaultMysql != "", d.defaultMongo != "", d.defaultRedis != "",
                    Environment(service.mysqlEnvironment, a.defaultMysql) != "",
                    Environment(service.mongoEnvironment, a.defaultMongo) != "",
                    Environment(service.redisEnvironment, a.defaultRedis) != "");
  }

  /** The dummy site names no environments of its own. */
  ghost predicate HasNoEnvironments(h: Handler, n: string) {
    var service := Lookup(h.spec.services, n, NO_SERVICE);
    service.mysqlEnvironment == "" && service.mongoEnvironment == "" && service.redisEnvironment == ""
  }

  lemma SiteValuesContained(dummy: Handler, actual: Handler)
    requires actual.configName == dummy.configName && actual.config == dummy.config
    requires HasNoEnvironments(dummy, dummy.configName)
    ensures SiteValues(dummy).Keys <= SiteValues(actual).Keys
  {
    DatabaseKeysOf(dummy, dummy.configName, dummy.config);
    DatabaseKeysOf(actual, actual.configName, actual.config);
    hide DatabaseValues, CommonKeys, MysqlKeys, MongoKeys, RedisKeys;
  }

  lemma ServiceKeysContained(md5: string -> string, dummy: Handler, actual: Handler)
    requires IsDigest(md5) && forall n | n in dummy.serviceConfigs :: HasNoEnvironments(dummy, n)
    requires KeepsServices(dummy.serviceConfigs, actual)
    ensures ServiceKeys(md5, dummy, dummy.serviceConfigs.Keys) <= ServiceKeys(md5, actual, actual.serviceConfigs.Keys)
  {
    forall n | n in dummy.serviceConfigs
      ensures n in actual.serviceConfigs && ServiceValues(md5, dummy, n).Keys <= ServiceValues(md5, actual, n).Keys
    {
      ServiceValuesContained(md5, dummy, actual, n);
    }
    hide ServiceValues, ServiceKey;
  }

  /** The keys a config was validated with are all there for a site exactly when every service
      config known at admission still exists and no default environment it had was cleared without
      the site naming its own. */
  lemma DummyKeysContained(md5: string -> string, name: string, config: ServiceConfig, namespace: string,
                           stored: map<string, ServiceConfig>,
                           mysql: map<string, MysqlConfig>, mongo: map<string, MongoConfig>,
                               redis: map<string, RedisConfig>, actual: Handler)
    requires IsDigest(md5) && actual.configName == name && actual.config == config
    ensures var dummy := DummyHandler(name, config, namespace, stored, mysql, mongo, redis);
            Keys(md5, dummy) <= Keys(md5, actual) <==> KeepsServices(dummy.serviceConfigs, actual)
  {
    var dummy := DummyHandler(name, config, namespace, stored, mysql, mongo, redis);
    assert forall n :: HasNoEnvironments(dummy, n);
    hide HasNoEnvironments, SiteValues, ServiceValues, Prefixed, ServiceKey, KeepsEnvironments;
    if KeepsServices(dummy.serviceConfigs, actual) {
      ServiceKeysContained(md5, dummy, actual);
      SiteValuesContained(dummy, actual);
      CustomKeys(dummy);
      CustomKeys(actual);
      NoOwnCustomValues(dummy, name, config);
    }
    if Keys(md5, dummy) <= Keys(md5, actual) {
      forall n | n in dummy.serviceConfigs
        ensures n in actual.serviceConfigs
        ensures KeepsEnvironments(dummy.serviceConfigs[n], actual.serviceConfigs[n],
            Lookup(actual.spec.services, n, NO_SERVICE))
      {
        ServiceIsKept(md5, dummy, actual, n);
      }
    }
  }

  lemma NoOwnCustomValues(dummy: Handler, name: string, config: ServiceConfig)
    requires dummy.spec == DummySite(name) && dummy.configName == name
    ensures OwnCustomValues(dummy) == map[] && Prefixed("site.custom.", OwnCustomValues(dummy).Keys) == {}
  {
  }

  lemma ServiceIsKept(md5: string -> string, dummy: Handler, actual: Handler, n: string)
    requires IsDigest(md5) && n in dummy.serviceConfigs && HasNoEnvironments(dummy, n)
    requires Keys(md5, dummy) <= Keys(md5, actual)
    ensures n in actual.serviceConfigs
    ensures KeepsEnvironments(dummy.serviceConfigs[n], actual.serviceConfigs[n],
        Lookup(actual.spec.services, n, NO_SERVICE))
  {
    assert "clusterUrl" in ServiceValues(md5, dummy, n);
    forall k | k in ServiceValues(md5, dummy, n)
      ensures n in actual.serviceConfigs && k in ServiceValues(md5, actual, n)
    {
      hide ServiceValues, SiteValues;
      ServiceValuesKeys(md5, dummy, n, k);
      assert ServiceKey(n, k) in ServiceKeys(md5, dummy, dummy.serviceConfigs.Keys);
      ServiceKeyOf(md5, actual, n, k);
    }
    hide ServiceValues;
    ServiceValuesContained(md5, dummy, actual, n);
  }

  lemma KeySetsResolve(config: ServiceConfig, keys: set<string>, more: set<string>)
    requires keys <= more && Resolves(config, keys, IngressValues(config).Keys)
    ensures Resolves(config, more, {INGRESS_KEY})
  {
  }

  /** Soundness of admission: what the webhook accepted resolves for every site of the config, as
      long as the services it knew are kept.  The ingress is rendered with a service name whether or
      not the config has a service. */
  lemma AcceptedConfigResolves(md5: string -> string, name: string, config: ServiceConfig, namespace: string,
                               stored: map<string, ServiceConfig>,
                               mysql: map<string, MysqlConfig>, mongo: map<string, MongoConfig>,
                                   redis: map<string, RedisConfig>, actual: Handler)
    requires IsDigest(md5) && actual.configName == name && actual.config == config
    ensures var dummy := DummyHandler(name, config, namespace, stored, mysql, mongo, redis);
            Resolves(config, Keys(md5, dummy), IngressValues(config).Keys)
                && KeepsServices(dummy.serviceConfigs, actual) ==>
              Resolves(config, Keys(md5, actual), {INGRESS_KEY})
  {
    var dummy := DummyHandler(name, config, namespace, stored, mysql, mongo, redis);
    hide Keys, Resolves, KeepsServices, DummyHandler;
    DummyKeysContained(md5, name, config, namespace, stored, mysql, mongo, redis, actual);
    if Resolves(config, Keys(md5, dummy), IngressValues(config).Keys) && KeepsServices(dummy.serviceConfigs, actual) {
      KeySetsResolve(config, Keys(md5, dummy), Keys(md5, actual));
    }
  }

  /** The webhook's template check from the config to the verdict. */
  method CheckTemplates(md5: string -> string, h: Handler) returns (ok: bool)
    requires IsDigest(md5)
    ensures HasWellFormedTexts(h.config) && (forall key, value | IsValue(md5, h, key, value) ::
                IsVarName(key) && IsPlain(value))
            ==> (ok <==> Resolves(h.config, Keys(md5, h), IngressValues(h.config).Keys))
  {
    hide IsValue, Keys, Resolves;
    var values := GetTemplateValues(md5, h);
    ok := ValidateTemplates(h.config, values);
  }
}
