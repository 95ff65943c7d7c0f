/** The admission of a service config as a whole (`handlers/webhook/serviceconfig_create_or_update.go`):
    its references and its templates, and what that means for the configs that a run has stored. */
module ConfigAdmission {
  import opened Iteration
  import opened Jobs
  import opened Apis
  import opened Names
  import opened Template
  import opened TemplateValues
  import opened TemplateAdmission
  import W = Webhooks

  /** The environments of the namespace, with their configs. */
  datatype Environments = Environments(mysql: map<string, MysqlConfig>, mongo: map<string, MongoConfig>,
                                       redis: map<string, RedisConfig>)

  ghost predicate AreOf(environments: Environments, w: W.World) {
    environments.mysql.Keys == w.mysql && environments.mongo.Keys == w.mongo && environments.redis.Keys == w.redis
  }

  /** What the webhook renders the templates with. */
  function Dummy(w: W.World, namespace: string, environments: Environments, name: string,
                 config: ServiceConfig): Handler {
    DummyHandler(name, config, namespace, w.configs, environments.mysql, environments.mongo, environments.redis)
  }

  /** Texts and values for which rendering is a substitution. */
  ghost predicate IsCheckable(md5: string -> string, h: Handler)
    requires IsDigest(md5)
  {
    HasWellFormedTexts(h.config) && forall key, value | IsValue(md5, h, key, value) :: IsVarName(key) && IsPlain(value)
  }

  ghost predicate TemplatesResolve(md5: string -> string, h: Handler)
    requires IsDigest(md5)
  {
    Resolves(h.config, Keys(md5, h), IngressValues(h.config).Keys)
  }

  /** First the references, then the templates; `verdict` is what the template check says. */
  method HandleConfig(md5: string -> string, namespace: string, w: W.World, environments: Environments, name: string,
                      config: ServiceConfig,
                      listed: bool) returns (allowed: bool, verdict: bool)
    requires IsDigest(md5) && AreOf(environments, w)
    ensures allowed <==> listed && W.AdmitsConfig(w, name, config, verdict)
    ensures var h := Dummy(w, namespace, environments, name, config);
            listed && W.AdmitsConfig(w, name, config, true) && IsCheckable(md5, h) ==>
              (verdict <==> TemplatesResolve(md5, h))
  {
    verdict := false;
    if !listed {
      return false, false;
    }
    var referencesExist := W.HandleReferences(w, name, config);
    if !referencesExist {
      return false, false;
    }
    verdict := CheckTemplates(md5, Dummy(w, namespace, environments, name, config));
    allowed := verdict;
  }

  // Runs

  /** A submission whose verdict is the template check's. */
  ghost predicate HasVerdict(md5: string -> string, namespace: string, w: W.World, environments: Environments,
                             e: W.Event)
    requires IsDigest(md5)
  {
    e.SubmitConfig? && e.listed && W.AdmitsConfig(w, e.name, e.config, true) ==>
      var h := Dummy(w, namespace, environments, e.name, e.config);
      IsCheckable(md5, h) ==> (e.templatesResolve <==> TemplatesResolve(md5, h))
  }

  ghost predicate HaveVerdicts(md5: string -> string, namespace: string, events: seq<W.Event>,
                               environments: seq<Environments>)
    requires IsDigest(md5)
  {
    && |environments| == |events|
    && forall i | 0 <= i < |events| :: HasVerdict(md5, namespace, W.Run(events[..i]), environments[i], events[i])
  }

  /** Event `i` of the run has stored the config of this name. */
  ghost predicate Stores(events: seq<W.Event>, i: nat, name: string, config: ServiceConfig) {
    && i < |events| && events[i].SubmitConfig? && events[i].name == name && events[i].config == config
    && events[i].listed && W.AdmitsConfig(W.Run(events[..i]), name, config, events[i].templatesResolve)
  }

  lemma {:induction false} StoredWasAdmitted(events: seq<W.Event>, name: string) returns (i: nat)
    requires name in W.Run(events).configs
    ensures Stores(events, i, name, W.Run(events).configs[name])
  {
    var front, e := events[..|events| - 1], events[|events| - 1];
    var w, w' := W.Run(front), W.Run(events);
    assert w' == W.Next(w, e);
    hide W.Run, W.Next, W.AdmitsConfig;
    if name in w.configs && w.configs[name] == w'.configs[name] {
      i := StoredWasAdmitted(front, name);
      assert front[..i] == events[..i];
    } else {
      ConfigsChangeBySubmission(w, e, name);
      i := |front|;
    }
  }

  lemma ConfigsChangeBySubmission(w: W.World, e: W.Event, name: string)
    requires name in W.Next(w, e).configs && !(name in w.configs && w.configs[name] == W.Next(w, e).configs[name])
    ensures e.SubmitConfig? && e.name == name && e.listed && W.AdmitsConfig(w, name, e.config, e.templatesResolve)
    ensures W.Next(w, e).configs[name] == e.config
  {
    hide W.AdmitSite;
  }

  /** In every run of admitted requests: a stored config was admitted by some event, and if its texts and
      the values of that moment are checkable, every text of it resolves for every site of the config that
      keeps the services known then. */
  lemma StoredConfigResolves(md5: string -> string, namespace: string, events: seq<W.Event>,
                             environments: seq<Environments>, name: string,
                             actual: Handler) returns (i: nat)
    requires IsDigest(md5) && HaveVerdicts(md5, namespace, events, environments)
    requires name in W.Run(events).configs && actual.configName == name && actual.config == W.Run(events).configs[name]
    ensures Stores(events, i, name, actual.config)
    ensures var h := Dummy(W.Run(events[..i]), namespace, environments[i], name, actual.config);
            IsCheckable(md5, h) && KeepsServices(h.serviceConfigs, actual) ==>
              Resolves(actual.config, Keys(md5, actual), {INGRESS_KEY})
  {
    i := StoredWasAdmitted(events, name);
    var w, env := W.Run(events[..i]), environments[i];
    assert HasVerdict(md5, namespace, w, env, events[i]);
    hide W.Run, IsCheckable, Keys, Resolves, KeepsServices;
    AcceptedConfigResolves(md5, name, actual.config, namespace, w.configs, env.mysql, env.mongo, env.redis, actual);
  }
}
