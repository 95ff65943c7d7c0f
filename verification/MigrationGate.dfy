/** What the gate before the workloads says about migrations: the site controller's view of the migration
    jobs (`handlers/job/db_migration_job_handler.go`) next to the runs of their own controller
    (`controllers/job/dbmigrationjob_controller.go`). */
module MigrationGate {
  import opened Jobs
  import opened Names
  import opened TaskDiff
  import opened TaskConvergence
  import opened SiteGating
  import M = MigrationJob

  /** The records of the site are the migration jobs of the run: their tags and states. */
  ghost predicate Shows(records: Store, site: string, w: M.World) {
    forall n | n in OfSite(records, site) ::
      n in w.store.jobs && records[n].content == [w.store.jobs[n].tag]
          && records[n].state == w.store.jobs[n].status.state
  }

  /** The job has been migrated to the tag: a batch job made for it has succeeded since it was recorded. */
  ghost predicate IsMigrated(md5: string -> string, events: seq<M.Event>, name: string, tag: string)
    requires IsDigest(md5)
  {
    exists i: nat :: M.Witness(md5, events, i, name, tag)
  }

  /** A Complete job has been migrated to a tag exactly when that is the recorded one. */
  lemma MigratedExactly(md5: string -> string, events: seq<M.Event>, name: string, tag: string)
    requires IsDigest(md5) && name in M.Run(md5, events).store.jobs
        && M.Run(md5, events).store.jobs[name].status.state == Complete
    ensures IsMigrated(md5, events, name, tag) <==> M.Run(md5, events).store.jobs[name].lastTag == tag
  {
    M.RunIsSafe(md5, events, name);
    if IsMigrated(md5, events, name, tag) {
      var i: nat :| M.Witness(md5, events, i, name, tag);
      assert events[..|events|] == events;
      assert M.Records(M.At(md5, events, |events|), name, tag);
    }
  }

  /** An open gate, exactly: the migrations are of the wanted tags if and only if every job records the
      tag that is wanted.  Matching specs, which is what the gate and the retagging pass look at, are not
      enough: the job's own controller may not have seen the new tag yet. */
  lemma OpenGateIsMigratedExactly(md5: string -> string, events: seq<M.Event>, site: Site, c: Cluster)
    requires IsDigest(md5) && MigrationsAreDone(md5, site, c) && Shows(c.migrations, site.name, M.Run(md5, events))
    ensures var jobs := M.Run(md5, events).store.jobs;
            (forall n | n in OfSite(c.migrations, site.name) ::
                IsMigrated(md5, events, n, site.spec.services[c.migrations[n].service].imageTag))
            <==> forall n | n in OfSite(c.migrations, site.name) ::
                jobs[n].lastTag == site.spec.services[c.migrations[n].service].imageTag
  {
    hide Corresponds, IsMigrated;
    OnlyWantedServices(md5, site, c);
    forall n | n in OfSite(c.migrations, site.name)
      ensures IsMigrated(md5, events, n, site.spec.services[c.migrations[n].service].imageTag) <==>
              M.Run(md5, events).store.jobs[n].lastTag == site.spec.services[c.migrations[n].service].imageTag
    {
      MigratedExactly(md5, events, n, site.spec.services[c.migrations[n].service].imageTag);
    }
  }

  lemma OnlyWantedServices(md5: string -> string, site: Site, c: Cluster)
    requires IsDigest(md5) && MigrationsAreDone(md5, site, c)
    ensures forall n | n in OfSite(c.migrations, site.name) :: c.migrations[n].service in site.spec.services
  {
  }

  /** Right after a retag: the spec matches and the state is still Complete, but nothing has been migrated
      to the new tag. */
  lemma RetaggedLooksComplete(md5: string -> string, events: seq<M.Event>, name: string, tag: string,
                              deadlineSeconds: int)
    requires IsDigest(md5) && name in M.Run(md5, events).store.jobs
    requires M.Run(md5, events).store.jobs[name].status.state == Complete
        && M.Run(md5, events).store.jobs[name].lastTag != tag
    ensures var after := events + [M.Edit(name, tag, deadlineSeconds)];
            var jobs := M.Run(md5, after).store.jobs;
            && name in jobs && jobs[name].tag == tag && jobs[name].status.state == Complete
            && !IsMigrated(md5, after, name, tag)
  {
    var after := events + [M.Edit(name, tag, deadlineSeconds)];
    assert after[..|after| - 1] == events;
    MigratedExactly(md5, after, name, tag);
  }
}
