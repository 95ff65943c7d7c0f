/** The admission webhooks of a namespace (`handlers/webhook`) as one protocol: what they let through
    keeps every reference to a service config or an environment valid. */
module Webhooks {
  import opened Jobs
  import opened Apis

  const SERVICES_PREFIX := "services.operator.kube-stager.io/"

  const ENVIRONMENTS := ".environments.operator.kube-stager.io/"

  function Prefix(engine: Engine): string {
    match engine
    case Mysql => "mysql" + ENVIRONMENTS
    case Mongo => "mongo" + ENVIRONMENTS
    case RedisEngine => "redis" + ENVIRONMENTS
  }

  datatype Site = Site(labels: map<string, string>, services: map<string, SiteService>, includeAll: bool)

  /** The objects of a namespace.  Names are never empty. */
  datatype World = World(sites: map<string, Site>, configs: map<string, ServiceConfig>, mysql: set<string>,
                         mongo: set<string>, redis: set<string>) {
    function Environments(engine: Engine): set<string> {
      match engine
      case Mysql => mysql
      case Mongo => mongo
      case RedisEngine => redis
    }
  }

  // Labels

  predicate HasPrefix(s: string, prefix: string) { prefix <= s }

  /** The key is the prefix followed by one of the non-empty values. */
  predicate IsAdded(k: string, prefix: string, values: set<string>) {
    HasPrefix(k, prefix) && k != prefix && k[|prefix|..] in values
  }

  function Added(prefix: string, values: set<string>): (r: set<string>)
    ensures forall k :: k in r <==> IsAdded(k, prefix, values)
  {
    var r := set v | v in values && v != "" :: prefix + v;
    assert forall v :: (prefix + v)[|prefix|..] == v;
    assert forall k | IsAdded(k, prefix, values) :: k == prefix + k[|prefix|..];
    r
  }

  ghost predicate HasPrefixedLabels(labels: map<string, string>, prefix: string, values: set<string>) {
    forall k | HasPrefix(k, prefix) :: (k in labels <==> IsAdded(k, prefix, values))
        && (k in labels ==> labels[k] == "true")
  }

  ghost predicate KeepsOtherLabels(before: map<string, string>, after: map<string, string>, prefix: string) {
    forall k | !(HasPrefix(k, prefix)) :: (k in after <==> k in before) && (k in after ==> after[k] == before[k])
  }

  function WithPrefixed(labels: map<string, string>, prefix: string, values: set<string>): (r: map<string, string>)
    ensures HasPrefixedLabels(r, prefix, values) && KeepsOtherLabels(labels, r, prefix)
  {
    map k | k in labels.Keys + Added(prefix, values) && (IsAdded(k, prefix, values) || !(HasPrefix(k, prefix))) ::
      if IsAdded(k, prefix, values) then "true" else labels[k]
  }

  method RemovePrefixed(labels: map<string, string>, prefix: string) returns (r: map<string, string>)
    ensures forall k :: k in r <==> k in labels && !(HasPrefix(k, prefix))
    ensures forall k | k in r :: r[k] == labels[k]
  {
    r := labels;
    var todo := labels.Keys;
    while todo != {}
      invariant todo <= labels.Keys
      invariant forall k :: k in r <==> k in labels && (k in todo || !(HasPrefix(k, prefix)))
      invariant forall k | k in r :: r[k] == labels[k]
      decreases |todo|
    {
      var k :| k in todo;
      if HasPrefix(k, prefix) {
        r := r - {k};
      }
      todo := todo - {k};
    }
  }

  method AddPrefixed(labels: map<string, string>, prefix: string, values: set<string>) returns (r: map<string, string>)
    ensures forall k :: k in r <==> k in labels || IsAdded(k, prefix, values)
    ensures forall k | k in r :: r[k] == if IsAdded(k, prefix, values) then "true" else labels[k]
  {
    r := labels;
    var rest, done: set<string> := values, {};
    while rest != {}
      invariant done == values - rest && rest <= values
      invariant forall k :: k in r <==> k in labels || IsAdded(k, prefix, done)
      invariant forall k | k in r :: r[k] == if IsAdded(k, prefix, done) then "true" else labels[k]
      decreases |rest|
    {
      var v :| v in rest;
      OneMoreValue(prefix, done, v);
      hide IsAdded;
      rest, done := rest - {v}, done + {v};
      if v == "" {
        continue;
      }
      r := r[prefix + v := "true"];
    }
    assert done == values;
  }

  lemma OneMoreValue(prefix: string, values: set<string>, v: string)
    ensures forall k :: IsAdded(k, prefix, values + {v}) <==> IsAdded(k, prefix, values) || (v != "" && k == prefix + v)
  {
    assert (prefix + v)[|prefix|..] == v;
    forall k | HasPrefix(k, prefix) && k[|prefix|..] == v ensures k == prefix + v {
    }
  }

  method UpdatePrefixedLabels(labels: map<string, string>, prefix: string, values: set<string>)
    returns (r: map<string, string>)
    ensures r == WithPrefixed(labels, prefix, values)
  {
    var others := RemovePrefixed(labels, prefix);
    r := AddPrefixed(others, prefix, values);
    assert r == WithPrefixed(labels, prefix, values);
  }

  // Sites

  const MASTER := "master"
  const LATEST := "latest"

  function OrElse(value: string, default: string): string { if value == "" then default else value }

  function Defaulted(config: ServiceConfig, service: SiteService): SiteService {
    service.(
      imageTag := OrElse(service.imageTag, LATEST),
      initSource := OrElse(service.initSource, MASTER),
      mongoEnvironment := OrElse(service.mongoEnvironment, config.defaultMongo),
      mysqlEnvironment := OrElse(service.mysqlEnvironment, config.defaultMysql),
      redisEnvironment := OrElse(service.redisEnvironment, config.defaultRedis))
  }

  function Included(w: World, site: Site): map<string, SiteService> {
    if site.includeAll then map n | n in site.services.Keys + w.configs.Keys :: Lookup(site.services, n, NO_SERVICE)
        else site.services
  }

  predicate EnvironmentsExist(w: World, service: SiteService) {
    && (service.mongoEnvironment == "" || service.mongoEnvironment in w.mongo)
    && (service.mysqlEnvironment == "" || service.mysqlEnvironment in w.mysql)
    && (service.redisEnvironment == "" || service.redisEnvironment in w.redis)
  }

  predicate IsValidService(w: World, name: string, service: SiteService) {
    name in w.configs && EnvironmentsExist(w, Defaulted(w.configs[name], service))
  }

  predicate AreValid(w: World, services: map<string, SiteService>): (r: bool)
    ensures r ==> forall n | n in services :: n in w.configs
  {
    forall n | n in services :: IsValidService(w, n, services[n])
  }

  function Used(services: map<string, SiteService>, engine: Engine): set<string> {
    set n | n in services && EnvironmentOf(services[n], engine) != "" :: EnvironmentOf(services[n], engine)
  }

  function Labelled(labels: map<string, string>, services: map<string, SiteService>): map<string, string> {
    var mongo := WithPrefixed(labels, Prefix(Mongo), Used(services, Mongo));
    var mysql := WithPrefixed(mongo, Prefix(Mysql), Used(services, Mysql));
    var redis := WithPrefixed(mysql, Prefix(RedisEngine), Used(services, RedisEngine));
    WithPrefixed(redis, SERVICES_PREFIX, services.Keys)
  }

  function DefaultedAll(w: World, services: map<string, SiteService>): map<string, SiteService>
    requires forall n | n in services :: n in w.configs
  {
    map n | n in services :: Defaulted(w.configs[n], services[n])
  }

  /** The site as it is stored, or a denial. */
  function AdmitSite(w: World, site: Site): Option<Site> {
    var services := Included(w, site);
    if services == map[] || !AreValid(w, services) then None
    else
      var filled := DefaultedAll(w, services);
      Some(Site(Labelled(site.labels, filled), filled, site.includeAll))
  }

  // Configs and environments

  /** No other config has the short name, and the default environments exist. */
  predicate AdmitsConfig(w: World, name: string, config: ServiceConfig, templatesResolve: bool) {
    && (forall n | n in w.configs && w.configs[n].shortName == config.shortName :: n == name)
    && (config.defaultMongo == "" || config.defaultMongo in w.mongo)
    && (config.defaultMysql == "" || config.defaultMysql in w.mysql)
    && (config.defaultRedis == "" || config.defaultRedis in w.redis)
    && templatesResolve
  }

  predicate HasLabel(site: Site, key: string) {
    key in site.labels && site.labels[key] == "true"
  }

  /** The guards ask for labels and defaults only. */
  predicate AdmitsEnvironmentDelete(w: World, engine: Engine, name: string) {
    && (forall s | s in w.sites :: !HasLabel(w.sites[s], Prefix(engine) + name))
    && (forall c | c in w.configs :: w.configs[c].DefaultOf(engine) != name)
  }

  predicate AdmitsConfigDelete(w: World, name: string) {
    forall s | s in w.sites :: !HasLabel(w.sites[s], SERVICES_PREFIX + name)
  }

  // The handlers

  class StagingsiteHandler {
    var labels: map<string, string>
    var services: map<string, SiteService>

    constructor (site: Site)
      ensures labels == site.labels && services == site.services
    {
      labels := site.labels;
      services := site.services;
    }

    static method IncludeAll(w: World, was: map<string, SiteService>) returns (services: map<string, SiteService>)
      ensures forall n :: n in services <==> n in was || n in w.configs
      ensures forall n | n in services :: services[n] == Lookup(was, n, NO_SERVICE)
    {
      services := was;
      var todo := w.configs.Keys;
      while todo != {}
        invariant todo <= w.configs.Keys
        invariant forall n :: n in services <==> n in was || (n in w.configs && n !in todo)
        invariant forall n | n in services :: services[n] == Lookup(was, n, NO_SERVICE)
        decreases |todo|
      {
        var n :| n in todo;
        services := services[n := Lookup(services, n, NO_SERVICE)];
        todo := todo - {n};
      }
    }

    static method FillInOne(w: World, name: string, service: SiteService) returns (ok: bool, filled: SiteService)
      ensures ok <==> IsValidService(w, name, service)
      ensures ok ==> name in w.configs && filled == Defaulted(w.configs[name], service)
    {
      filled := service;
      if name !in w.configs {
        return false, service;
      }
      filled := Defaulted(w.configs[name], service);
      if filled.mongoEnvironment != "" && filled.mongoEnvironment !in w.mongo {
        return false, filled;
      }
      if filled.mysqlEnvironment != "" && filled.mysqlEnvironment !in w.mysql {
        return false, filled;
      }
      if filled.redisEnvironment != "" && filled.redisEnvironment !in w.redis {
        return false, filled;
      }
      ok := true;
    }

    /** Fills in one service after the other and notes the environments in use. */
    static method FillIn(w: World, services: map<string, SiteService>)
      returns (ok: bool, filled: map<string, SiteService>, mongo: set<string>, mysql: set<string>, redis: set<string>)
      ensures ok <==> AreValid(w, services)
      ensures ok ==> filled == DefaultedAll(w, services)
      ensures ok ==> mongo == Used(filled, Mongo) && mysql == Used(filled, Mysql) && redis == Used(filled, RedisEngine)
    {
      hide Used, Defaulted, IsValidService, Note;
      filled, mongo, mysql, redis := map[], {}, {}, {};
      var todo := services.Keys;
      NothingUsed();
      while todo != {}
        invariant todo <= services.Keys && filled.Keys == services.Keys - todo
        invariant forall n | n in filled ::
            n in w.configs && IsValidService(w, n, services[n])
            && filled[n] == Defaulted(w.configs[n], services[n])
        invariant mongo == Used(filled, Mongo) && mysql == Used(filled, Mysql) && redis == Used(filled, RedisEngine)
        decreases |todo|
      {
        var n :| n in todo;
        var service: SiteService;
        ok, service := FillInOne(w, n, services[n]);
        if !ok {
          return;
        }
        UsedOneMore(filled, n, service, Mongo);
        UsedOneMore(filled, n, service, Mysql);
        UsedOneMore(filled, n, service, RedisEngine);
        filled := filled[n := service];
        todo := todo - {n};
        mongo := Note(mongo, service.mongoEnvironment);
        mysql := Note(mysql, service.mysqlEnvironment);
        redis := Note(redis, service.redisEnvironment);
      }
      ok := true;
    }

    /** `listed` is whether the configs and environments could be listed. */
    method Handle(w: World, includeAll: bool, listed: bool) returns (admitted: Option<Site>)
      modifies this
      ensures admitted == if listed then AdmitSite(w, Site(old(labels), old(services), includeAll)) else None
    {
      hide AreValid, DefaultedAll, Used, WithPrefixed;
      if !listed {
        return None;
      }
      if includeAll {
        services := IncludeAll(w, services);
      }
      assert services == Included(w, Site(old(labels), old(services), includeAll));
      if services == map[] {
        return None;
      }
      hide Included;
      var ok, filled, mongo, mysql, redis := FillIn(w, services);
      if !ok {
        return None;
      }
      services := filled;
      labels := UpdatePrefixedLabels(labels, Prefix(Mongo), mongo);
      labels := UpdatePrefixedLabels(labels, Prefix(Mysql), mysql);
      labels := UpdatePrefixedLabels(labels, Prefix(RedisEngine), redis);
      labels := UpdatePrefixedLabels(labels, SERVICES_PREFIX, services.Keys);
      admitted := Some(Site(labels, services, includeAll));
    }
  }

  function Note(names: set<string>, name: string): set<string> { if name == "" then names else names + {name} }

  lemma NothingUsed()
    ensures forall engine :: Used(map[], engine) == {}
  {
  }

  lemma UsedOneMore(services: map<string, SiteService>, n: string, service: SiteService, engine: Engine)
    requires n !in services
    ensures Used(services[n := service], engine) == Note(Used(services, engine), EnvironmentOf(service, engine))
  {
    var more := services[n := service];
    forall x | x in Used(services, engine) ensures x in Used(more, engine) {
      var m :| m in services && EnvironmentOf(services[m], engine) != "" && EnvironmentOf(services[m], engine) == x;
      assert m in more && more[m] == services[m];
    }
    forall x | x in Used(more, engine) && x != EnvironmentOf(service, engine) ensures x in Used(services, engine) {
      var m :| m in more && EnvironmentOf(more[m], engine) != "" && EnvironmentOf(more[m], engine) == x;
      assert m in services && more[m] == services[m];
    }
    assert n in more && more[n] == service;
  }

  /** The names found by a query are appended; only whether there is one decides. */
  method HandleEnvironmentDelete(w: World, engine: Engine, name: string, sitesListed: bool, configsListed: bool)
    returns (allowed: bool)
    ensures allowed <==> sitesListed && configsListed && AdmitsEnvironmentDelete(w, engine, name)
  {
    var using := set s | s in w.sites && HasLabel(w.sites[s], Prefix(engine) + name);
    var defaulting := set c | c in w.configs && w.configs[c].DefaultOf(engine) == name;
    allowed := sitesListed && using == {} && configsListed && defaulting == {};
    if allowed {
      assert forall s | s in w.sites :: s !in using;
      assert forall c | c in w.configs :: c !in defaulting;
    }
  }

  method HandleConfigDelete(w: World, name: string, listed: bool) returns (allowed: bool)
    ensures allowed <==> listed && AdmitsConfigDelete(w, name)
  {
    var using := set s | s in w.sites && HasLabel(w.sites[s], SERVICES_PREFIX + name);
    allowed := listed && using == {};
    if allowed {
      assert forall s | s in w.sites :: s !in using;
    }
  }

  /** Everything but the templates. */
  method HandleReferences(w: World, name: string, config: ServiceConfig) returns (allowed: bool)
    ensures allowed <==> AdmitsConfig(w, name, config, true)
  {
    var same := set n | n in w.configs && w.configs[n].shortName == config.shortName;
    if |same| > 1 {
      assert !(same <= {name}) by { SubsetOfOne(same, name); }
      return false;
    }
    if |same| == 1 {
      var other :| other in same;
      if other != name {
        return false;
      }
      OnlyOne(same, name);
    }
    assert forall n | n in w.configs && w.configs[n].shortName == config.shortName :: n in same;
    if config.defaultMongo != "" && config.defaultMongo !in w.mongo {
      return false;
    }
    if config.defaultMysql != "" && config.defaultMysql !in w.mysql {
      return false;
    }
    if config.defaultRedis != "" && config.defaultRedis !in w.redis {
      return false;
    }
    allowed := true;
  }

  lemma SubsetOfOne(s: set<string>, a: string)
    ensures s <= {a} ==> |s| <= 1
  {
    if s <= {a} && s != {} {
      assert s == {a};
    }
  }

  lemma OnlyOne(s: set<string>, a: string)
    requires |s| == 1 && a in s
    ensures s == {a}
  {
    assert |s - {a}| == 0;
  }

  // Referential integrity

  ghost predicate HasExactLabels(labels: map<string, string>, services: map<string, SiteService>) {
    && HasPrefixedLabels(labels, Prefix(Mysql), Used(services, Mysql))
    && HasPrefixedLabels(labels, Prefix(Mongo), Used(services, Mongo))
    && HasPrefixedLabels(labels, Prefix(RedisEngine), Used(services, RedisEngine))
    && HasPrefixedLabels(labels, SERVICES_PREFIX, services.Keys)
  }

  ghost predicate SiteIsIntact(w: World, site: Site) {
    && (forall n | n in site.services :: n in w.configs && EnvironmentsExist(w, site.services[n]))
    && HasExactLabels(site.labels, site.services)
  }

  predicate ConfigIsIntact(w: World, config: ServiceConfig) {
    && (config.defaultMongo == "" || config.defaultMongo in w.mongo)
    && (config.defaultMysql == "" || config.defaultMysql in w.mysql)
    && (config.defaultRedis == "" || config.defaultRedis in w.redis)
  }

  ghost predicate AreUnique(configs: map<string, ServiceConfig>) {
    forall a, b | a in configs && b in configs && configs[a].shortName == configs[b].shortName :: a == b
  }

  /** Sites and configs only refer to what exists, the labels of the webhook are exactly those for what
      the site uses, and short names are unique. */
  ghost predicate IsIntact(w: World) {
    && (forall s | s in w.sites :: SiteIsIntact(w, w.sites[s]))
    && (forall c | c in w.configs :: ConfigIsIntact(w, w.configs[c]))
    && AreUnique(w.configs)
  }

  ghost predicate AreIncompatible(a: string, b: string) {
    forall k: string | HasPrefix(k, a) :: !(HasPrefix(k, b))
  }

  lemma DifferAt(a: string, b: string, i: nat)
    requires i < |a| && i < |b| && a[i] != b[i]
    ensures AreIncompatible(a, b) && AreIncompatible(b, a)
  {
    forall k: string | HasPrefix(k, a) ensures !(HasPrefix(k, b)) {
      assert k[i] == a[i];
    }
    forall k: string | HasPrefix(k, b) ensures !(HasPrefix(k, a)) {
      assert k[i] == b[i];
    }
  }

  lemma Letters()
    ensures |Prefix(Mysql)| > 1 && |Prefix(Mongo)| > 1 && |Prefix(RedisEngine)| > 1 && |SERVICES_PREFIX| > 1
    ensures Prefix(Mysql)[0] == 'm' && Prefix(Mongo)[0] == 'm' && Prefix(RedisEngine)[0] == 'r'
        && SERVICES_PREFIX[0] == 's'
    ensures Prefix(Mysql)[1] == 'y' && Prefix(Mongo)[1] == 'o'
  {
    assert "mysql"[0] == 'm' && "mysql"[1] == 'y';
    assert "mongo"[0] == 'm' && "mongo"[1] == 'o';
    assert "redis"[0] == 'r';
  }

  lemma PrefixesAreIncompatible()
    ensures AreIncompatible(Prefix(Mysql), Prefix(Mongo)) && AreIncompatible(Prefix(Mysql), Prefix(RedisEngine))
        && AreIncompatible(Prefix(Mysql), SERVICES_PREFIX)
    ensures AreIncompatible(Prefix(Mongo), Prefix(Mysql)) && AreIncompatible(Prefix(Mongo), Prefix(RedisEngine))
        && AreIncompatible(Prefix(Mongo), SERVICES_PREFIX)
    ensures AreIncompatible(Prefix(RedisEngine), SERVICES_PREFIX)
  {
    Letters();
    DifferAt(Prefix(Mysql), Prefix(Mongo), 1);
    DifferAt(Prefix(Mysql), Prefix(RedisEngine), 0);
    DifferAt(Prefix(Mysql), SERVICES_PREFIX, 0);
    DifferAt(Prefix(Mongo), Prefix(RedisEngine), 0);
    DifferAt(Prefix(Mongo), SERVICES_PREFIX, 0);
    DifferAt(Prefix(RedisEngine), SERVICES_PREFIX, 0);
  }

  lemma LabelsSurvive(before: map<string, string>, after: map<string, string>, prefix: string, values: set<string>,
                      other: string)
    requires HasPrefixedLabels(before, prefix, values) && KeepsOtherLabels(before, after, other)
        && AreIncompatible(prefix, other)
    ensures HasPrefixedLabels(after, prefix, values)
  {
    hide IsAdded;
  }

  predicate IsPrefixed(k: string) {
    HasPrefix(k, Prefix(Mysql)) || HasPrefix(k, Prefix(Mongo)) || HasPrefix(k, Prefix(RedisEngine))
        || HasPrefix(k, SERVICES_PREFIX)
  }

  ghost predicate KeepsForeignLabels(before: map<string, string>, after: map<string, string>) {
    forall k | !IsPrefixed(k) :: (k in after <==> k in before) && (k in after ==> after[k] == before[k])
  }

  /** Four updates in a row: each keeps what the others have written, and every other label stays. */
  lemma LabelsAreExact(labels: map<string, string>, services: map<string, SiteService>)
    ensures HasExactLabels(Labelled(labels, services), services)
        && KeepsForeignLabels(labels, Labelled(labels, services))
  {
    var mongo := WithPrefixed(labels, Prefix(Mongo), Used(services, Mongo));
    var mysql := WithPrefixed(mongo, Prefix(Mysql), Used(services, Mysql));
    var redis := WithPrefixed(mysql, Prefix(RedisEngine), Used(services, RedisEngine));
    var after := WithPrefixed(redis, SERVICES_PREFIX, services.Keys);
    assert after == Labelled(labels, services);
    hide WithPrefixed, Used, Prefix, HasPrefixedLabels, KeepsOtherLabels, AreIncompatible, IsPrefixed,
        KeepsForeignLabels, Labelled;
    PrefixesAreIncompatible();
    LabelsSurvive(mongo, mysql, Prefix(Mongo), Used(services, Mongo), Prefix(Mysql));
    LabelsSurvive(mysql, redis, Prefix(Mongo), Used(services, Mongo), Prefix(RedisEngine));
    LabelsSurvive(redis, after, Prefix(Mongo), Used(services, Mongo), SERVICES_PREFIX);
    LabelsSurvive(mysql, redis, Prefix(Mysql), Used(services, Mysql), Prefix(RedisEngine));
    LabelsSurvive(redis, after, Prefix(Mysql), Used(services, Mysql), SERVICES_PREFIX);
    LabelsSurvive(redis, after, Prefix(RedisEngine), Used(services, RedisEngine), SERVICES_PREFIX);
    ForeignLabelsSurvive(labels, mongo, mysql, redis, after);
  }

  lemma ForeignLabelsSurvive(labels: map<string, string>, mongo: map<string, string>, mysql: map<string, string>,
                             redis: map<string, string>, after: map<string, string>)
    requires KeepsOtherLabels(labels, mongo, Prefix(Mongo)) && KeepsOtherLabels(mongo, mysql, Prefix(Mysql))
    requires KeepsOtherLabels(mysql, redis, Prefix(RedisEngine)) && KeepsOtherLabels(redis, after, SERVICES_PREFIX)
    ensures KeepsForeignLabels(labels, after)
  {
  }

  /** What is admitted is intact and has at least one service; labels that are none of the webhook's
      business are untouched, and nothing that was filled in is changed. */
  lemma AdmittedSiteIsIntact(w: World, site: Site)
    requires AdmitSite(w, site).Some?
    ensures var after := AdmitSite(w, site).value;
            && SiteIsIntact(w, after) && after.services != map[]
            && KeepsForeignLabels(site.labels, after.labels)
            && site.services.Keys <= after.services.Keys
            && (site.includeAll ==> w.configs.Keys <= after.services.Keys)
            && (!site.includeAll ==> after.services.Keys == site.services.Keys)
            && (forall n, engine | n in site.services && EnvironmentOf(site.services[n], engine) != "" ::
                  EnvironmentOf(after.services[n], engine) == EnvironmentOf(site.services[n], engine))
  {
    LabelsAreExact(site.labels, DefaultedAll(w, Included(w, site)));
    hide Labelled, HasExactLabels, KeepsForeignLabels;
  }

  /** A field as submitted, or the default where it was left empty. */
  ghost predicate IsFilledFrom(stored: string, submitted: string, default: string) {
    (submitted != "" ==> stored == submitted) && (submitted == "" ==> stored == default)
  }

  /** Every field of every service of an admitted site: what was submitted, or a default; a service that
      was added has nothing but defaults. */
  lemma AdmittedFields(w: World, site: Site, n: string)
    requires AdmitSite(w, site).Some? && n in AdmitSite(w, site).value.services
    ensures n in w.configs
    ensures n in site.services || (site.includeAll && n in w.configs)
    ensures var stored, c := AdmitSite(w, site).value.services[n], w.configs[n];
            if n in site.services then
              var submitted := site.services[n];
              && IsFilledFrom(stored.imageTag, submitted.imageTag, "latest")
              && IsFilledFrom(stored.initSource, submitted.initSource, "master")
              && IsFilledFrom(stored.mysqlEnvironment, submitted.mysqlEnvironment, c.defaultMysql)
              && IsFilledFrom(stored.mongoEnvironment, submitted.mongoEnvironment, c.defaultMongo)
              && IsFilledFrom(stored.redisEnvironment, submitted.redisEnvironment, c.defaultRedis)
              && stored.customValues == submitted.customValues
            else
              stored == SiteService("latest", c.defaultMysql, c.defaultMongo, c.defaultRedis, "master", map[])
  {
    hide Labelled, EnvironmentsExist;
  }

  /** An environment as it will be stored: none, or one that exists. */
  ghost predicate IsUsable(submitted: string, default: string, existing: set<string>) {
    if submitted != "" then submitted in existing else default == "" || default in existing
  }

  /** Exactly when a site is admitted. */
  lemma AdmittedExactly(w: World, site: Site)
    ensures AdmitSite(w, site).Some? <==>
              && (site.services != map[] || (site.includeAll && w.configs != map[]))
              && (forall n | n in site.services ::
                    && n in w.configs
                    && IsUsable(site.services[n].mysqlEnvironment, w.configs[n].defaultMysql, w.mysql)
                    && IsUsable(site.services[n].mongoEnvironment, w.configs[n].defaultMongo, w.mongo)
                    && IsUsable(site.services[n].redisEnvironment, w.configs[n].defaultRedis, w.redis))
              && (site.includeAll ==> forall n | n in w.configs && n !in site.services ::
                    && IsUsable("", w.configs[n].defaultMysql, w.mysql)
                    && IsUsable("", w.configs[n].defaultMongo, w.mongo)
                    && IsUsable("", w.configs[n].defaultRedis, w.redis))
  {
    hide Labelled, IsValidService, DefaultedAll;
    var services := Included(w, site);
    assert services.Keys == site.services.Keys + if site.includeAll then w.configs.Keys else {};
    assert services == map[] <==> services.Keys == {};
    assert site.services == map[] <==> site.services.Keys == {};
    assert w.configs == map[] <==> w.configs.Keys == {};
    forall n | n in services
      ensures IsValidService(w, n, services[n]) <==>
                && n in w.configs
                && IsUsable(services[n].mysqlEnvironment, w.configs[n].defaultMysql, w.mysql)
                && IsUsable(services[n].mongoEnvironment, w.configs[n].defaultMongo, w.mongo)
                && IsUsable(services[n].redisEnvironment, w.configs[n].defaultRedis, w.redis)
    {
      ValidMeans(w, n, services[n]);
    }
    hide IsUsable;
    assert forall n | n in services :: services[n] == if n in site.services then site.services[n] else NO_SERVICE;
  }

  lemma ValidMeans(w: World, n: string, service: SiteService)
    ensures IsValidService(w, n, service) <==>
              && n in w.configs
              && IsUsable(service.mysqlEnvironment, w.configs[n].defaultMysql, w.mysql)
              && IsUsable(service.mongoEnvironment, w.configs[n].defaultMongo, w.mongo)
              && IsUsable(service.redisEnvironment, w.configs[n].defaultRedis, w.redis)
  {
  }

  /** Admitting a stored site once more changes nothing. */
  lemma AdmissionIsIdempotent(w: World, site: Site)
    requires AdmitSite(w, site).Some?
    ensures AdmitSite(w, AdmitSite(w, site).value) == AdmitSite(w, site)
  {
    var after := AdmitSite(w, site).value;
    AdmittedSiteIsIntact(w, site);
    ServicesAreFixed(w, site);
    LabelsAreExact(after.labels, after.services);
    hide Labelled, Included, DefaultedAll, HasExactLabels, KeepsForeignLabels, AdmitSite, IsValidService;
    SameLabels(after.labels, Labelled(after.labels, after.services), after.services);
    AdmitValue(w, after);
  }

  lemma DefaultedTwice(w: World, config: ServiceConfig, service: SiteService)
    ensures Defaulted(config, Defaulted(config, service)) == Defaulted(config, service)
  {
  }

  lemma ServicesAreFixed(w: World, site: Site)
    requires AdmitSite(w, site).Some?
    ensures var after := AdmitSite(w, site).value;
            && AreValid(w, after.services)
            && Included(w, after) == after.services && after.services != map[]
                && DefaultedAll(w, after.services) == after.services
  {
    var services, after := Included(w, site), AdmitSite(w, site).value;
    forall n | n in services ensures after.services[n] == Defaulted(w.configs[n], services[n])
        && Defaulted(w.configs[n], after.services[n]) == after.services[n] {
      DefaultedTwice(w, w.configs[n], services[n]);
    }
    hide Labelled, Defaulted;
    assert DefaultedAll(w, after.services) == after.services;
    assert site.includeAll ==> w.configs.Keys <= services.Keys;
    assert Included(w, after) == after.services;
  }

  lemma AdmitValue(w: World, site: Site)
    requires Included(w, site) == site.services && site.services != map[]
    requires AreValid(w, site.services)
    requires DefaultedAll(w, site.services) == site.services && Labelled(site.labels, site.services) == site.labels
    ensures AdmitSite(w, site) == Some(site)
  {
    hide Labelled, Included, DefaultedAll;
  }

  lemma SameLabels(before: map<string, string>, after: map<string, string>, services: map<string, SiteService>)
    requires HasExactLabels(before, services) && HasExactLabels(after, services) && KeepsForeignLabels(before, after)
    ensures before == after
  {
    hide Prefix, Used, IsAdded;
    forall k ensures (k in before <==> k in after) && (k in before ==> before[k] == after[k]) {
    }
  }

  // The guards are exact

  lemma LabelExactly(site: Site, prefix: string, values: set<string>, v: string)
    requires HasPrefixedLabels(site.labels, prefix, values) && v != ""
    ensures HasLabel(site, prefix + v) <==> v in values
  {
    assert HasPrefix(prefix + v, prefix) && (prefix + v)[|prefix|..] == v;
  }

  /** Whether a service of the site has the environment. */
  ghost predicate Uses(site: Site, engine: Engine, name: string) {
    exists n :: n in site.services && EnvironmentOf(site.services[n], engine) == name
  }

  lemma LabelsTell(site: Site, engine: Engine, name: string)
    requires HasExactLabels(site.labels, site.services) && name != ""
    ensures HasLabel(site, Prefix(engine) + name) <==> Uses(site, engine, name)
    ensures HasLabel(site, SERVICES_PREFIX + name) <==> name in site.services
  {
    LabelExactly(site, Prefix(engine), Used(site.services, engine), name);
    LabelExactly(site, SERVICES_PREFIX, site.services.Keys, name);
    hide HasPrefixedLabels, Prefix;
    if Uses(site, engine, name) {
      var n :| n in site.services && EnvironmentOf(site.services[n], engine) == name;
      assert name in Used(site.services, engine);
    }
  }

  /** On an intact namespace the label queries find exactly the users: an environment may be deleted if
      and only if no service of a site uses it and no config has it as its default, a config if and only
      if no site has the service. */
  lemma GuardsAreExact(w: World, engine: Engine, name: string)
    requires IsIntact(w) && name != ""
    ensures AdmitsEnvironmentDelete(w, engine, name) <==>
              && (forall s | s in w.sites :: !Uses(w.sites[s], engine, name))
              && (forall c | c in w.configs :: w.configs[c].DefaultOf(engine) != name)
    ensures AdmitsConfigDelete(w, name) <==> forall s | s in w.sites :: name !in w.sites[s].services
  {
    forall s | s in w.sites
      ensures HasLabel(w.sites[s], Prefix(engine) + name) <==> Uses(w.sites[s], engine, name)
      ensures HasLabel(w.sites[s], SERVICES_PREFIX + name) <==> name in w.sites[s].services
    {
      assert SiteIsIntact(w, w.sites[s]);
      LabelsTell(w.sites[s], engine, name);
    }
  }

  // Runs

  datatype Event =
    | SubmitSite(name: string, site: Site, listed: bool)             // creation or update
    | RemoveSite(name: string)
    | SubmitConfig(name: string, config: ServiceConfig, listed: bool, templatesResolve: bool)
    | DeleteConfig(name: string, listed: bool)
    | AddEnvironment(engine: Engine, name: string)
    | DeleteEnvironment(engine: Engine, name: string, sitesListed: bool, configsListed: bool)

  function WithEnvironments(w: World, engine: Engine, names: set<string>): World {
    match engine
    case Mysql => w.(mysql := names)
    case Mongo => w.(mongo := names)
    case RedisEngine => w.(redis := names)
  }

  function Next(w: World, e: Event): World {
    match e
    case SubmitSite(name, site, listed) =>
      if listed && AdmitSite(w, site).Some? then w.(sites := w.sites[name := AdmitSite(w, site).value]) else w
    case RemoveSite(name) => w.(sites := w.sites - {name})
    case SubmitConfig(name, config, listed, templatesResolve) =>
      if name != "" && listed && AdmitsConfig(w, name, config, templatesResolve) then
          w.(configs := w.configs[name := config]) else w
    case DeleteConfig(name, listed) => if name != "" && listed
        && AdmitsConfigDelete(w, name) then w.(configs := w.configs - {name}) else w
    case AddEnvironment(engine, name) => if name != "" then WithEnvironments(w, engine, w.Environments(engine) + {name})
        else w
    case DeleteEnvironment(engine, name, sitesListed, configsListed) =>
      if name != "" && sitesListed && configsListed && AdmitsEnvironmentDelete(w, engine, name)
      then WithEnvironments(w, engine, w.Environments(engine) - {name}) else w
  }

  function Run(events: seq<Event>): World {
    if events == [] then World(map[], map[], {}, {}, {})
    else Next(Run(events[..|events| - 1]), events[|events| - 1])
  }

  /** What the site refers to is still there. */
  ghost predicate Provides(w: World, site: Site) {
    forall n | n in site.services :: n in w.configs && EnvironmentsExist(w, site.services[n])
  }

  lemma StaysIntact(w: World, w': World, site: Site)
    requires SiteIsIntact(w, site) && Provides(w', site)
    ensures SiteIsIntact(w', site)
  {
    hide HasExactLabels;
  }

  lemma SubmitSiteKeeps(w: World, e: Event)
    requires IsIntact(w) && e.SubmitSite?
    ensures IsIntact(Next(w, e))
  {
    hide AdmitSite, HasExactLabels, KeepsForeignLabels, AreUnique;
    if e.listed && AdmitSite(w, e.site).Some? {
      AdmittedSiteIsIntact(w, e.site);
      var w' := Next(w, e);
      forall s | s in w'.sites ensures SiteIsIntact(w', w'.sites[s]) {
        StaysIntact(w, w', w'.sites[s]);
      }
    }
  }

  lemma RemoveSiteKeeps(w: World, e: Event)
    requires IsIntact(w) && e.RemoveSite?
    ensures IsIntact(Next(w, e))
  {
    hide HasExactLabels, AreUnique;
    var w' := Next(w, e);
    forall s | s in w'.sites ensures SiteIsIntact(w', w'.sites[s]) {
      StaysIntact(w, w', w.sites[s]);
    }
  }

  lemma SubmitConfigKeeps(w: World, e: Event)
    requires IsIntact(w) && e.SubmitConfig?
    ensures IsIntact(Next(w, e))
  {
    hide HasExactLabels;
    var w' := Next(w, e);
    forall s | s in w'.sites ensures SiteIsIntact(w', w'.sites[s]) {
      StaysIntact(w, w', w.sites[s]);
    }
    forall c | c in w'.configs ensures ConfigIsIntact(w', w'.configs[c]) {
      if c in w.configs {
        assert ConfigIsIntact(w, w.configs[c]);
      }
    }
  }

  lemma DeleteConfigKeeps(w: World, e: Event)
    requires IsIntact(w) && e.DeleteConfig?
    ensures IsIntact(Next(w, e))
  {
    hide HasExactLabels, AdmitsConfigDelete, AreUnique, EnvironmentsExist, ConfigIsIntact;
    if e.name != "" {
      GuardsAreExact(w, Mysql, e.name);
    }
    var w' := Next(w, e);
    forall s | s in w'.sites ensures SiteIsIntact(w', w'.sites[s]) {
      assert SiteIsIntact(w, w.sites[s]);
      SameEnvironments(w, w');
      StaysIntact(w, w', w.sites[s]);
    }
    SameEnvironments(w, w');
    assert AreUnique(w'.configs) by { FewerAreUnique(w.configs, w'.configs); }
  }

  lemma SameEnvironments(w: World, w': World)
    requires w'.mysql == w.mysql && w'.mongo == w.mongo && w'.redis == w.redis
    ensures forall service :: EnvironmentsExist(w', service) == EnvironmentsExist(w, service)
    ensures forall config :: ConfigIsIntact(w', config) == ConfigIsIntact(w, config)
  {
  }

  lemma FewerAreUnique(configs: map<string, ServiceConfig>, fewer: map<string, ServiceConfig>)
    requires AreUnique(configs) && forall n | n in fewer :: n in configs && configs[n] == fewer[n]
    ensures AreUnique(fewer)
  {
  }

  lemma MoreEnvironments(w: World, w': World)
    requires w.mysql <= w'.mysql && w.mongo <= w'.mongo && w.redis <= w'.redis
    ensures forall service :: EnvironmentsExist(w, service) ==> EnvironmentsExist(w', service)
    ensures forall config :: ConfigIsIntact(w, config) ==> ConfigIsIntact(w', config)
  {
  }

  lemma AddEnvironmentKeeps(w: World, e: Event)
    requires IsIntact(w) && e.AddEnvironment?
    ensures IsIntact(Next(w, e))
  {
    hide HasExactLabels, AreUnique, EnvironmentsExist, ConfigIsIntact;
    var w' := Next(w, e);
    MoreEnvironments(w, w');
    forall s | s in w'.sites ensures SiteIsIntact(w', w'.sites[s]) {
      assert SiteIsIntact(w, w.sites[s]);
      StaysIntact(w, w', w.sites[s]);
    }
  }

  lemma StillExists(w: World, engine: Engine, name: string, service: SiteService)
    requires EnvironmentsExist(w, service) && EnvironmentOf(service, engine) != name
    ensures EnvironmentsExist(WithEnvironments(w, engine, w.Environments(engine) - {name}), service)
  {
  }

  lemma StillDefault(w: World, engine: Engine, name: string, config: ServiceConfig)
    requires ConfigIsIntact(w, config) && config.DefaultOf(engine) != name
    ensures ConfigIsIntact(WithEnvironments(w, engine, w.Environments(engine) - {name}), config)
  {
  }

  lemma DeleteEnvironmentKeeps(w: World, e: Event)
    requires IsIntact(w) && e.DeleteEnvironment?
    ensures IsIntact(Next(w, e))
  {
    hide HasExactLabels, AreUnique, AdmitsEnvironmentDelete, EnvironmentsExist, ConfigIsIntact;
    if e.name != "" && e.sitesListed && e.configsListed && AdmitsEnvironmentDelete(w, e.engine, e.name) {
      GuardsAreExact(w, e.engine, e.name);
      var w' := WithEnvironments(w, e.engine, w.Environments(e.engine) - {e.name});
      assert Next(w, e) == w' && w'.sites == w.sites && w'.configs == w.configs;
      hide WithEnvironments;
      forall s | s in w.sites ensures SiteIsIntact(w', w.sites[s]) {
        var site := w.sites[s];
        assert SiteIsIntact(w, site) && !Uses(site, e.engine, e.name);
        forall n | n in site.services ensures EnvironmentsExist(w', site.services[n]) {
          StillExists(w, e.engine, e.name, site.services[n]);
        }
        StaysIntact(w, w', site);
      }
      forall c | c in w.configs ensures ConfigIsIntact(w', w.configs[c]) {
        StillDefault(w, e.engine, e.name, w.configs[c]);
      }
    }
  }

  lemma StepKeepsIntact(w: World, e: Event)
    requires IsIntact(w)
    ensures IsIntact(Next(w, e))
  {
    hide IsIntact, Next;
    match e
    case SubmitSite(_, _, _) => SubmitSiteKeeps(w, e);
    case RemoveSite(_) => RemoveSiteKeeps(w, e);
    case SubmitConfig(_, _, _, _) => SubmitConfigKeeps(w, e);
    case DeleteConfig(_, _) => DeleteConfigKeeps(w, e);
    case AddEnvironment(_, _) => AddEnvironmentKeeps(w, e);
    case DeleteEnvironment(_, _, _, _) => DeleteEnvironmentKeeps(w, e);
  }

  /** In every run of creations, updates and deletions that the webhooks let through. */
  lemma {:induction false} ReferencesStayIntact(events: seq<Event>)
    ensures IsIntact(Run(events))
  {
    if events != [] {
      ReferencesStayIntact(events[..|events| - 1]);
      StepKeepsIntact(Run(events[..|events| - 1]), events[|events| - 1]);
      hide IsIntact;
    }
  }
}
