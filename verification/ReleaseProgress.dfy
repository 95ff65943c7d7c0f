/** How a deleted site gets its final Backup and is released: the passes of the site controller and of the
    backup controller, one after the other (`controllers/site/stagingsite_controller.go:262-295`,
    `handlers/job/backup_handler.go:48-85`). */
module ReleaseProgress {
  import opened Iteration
  import opened Jobs
  import opened Names
  import opened Apis
  import opened BackupJob
  import opened BackupFinality
  import opened BackupProgress
  import opened FinalBackup

  /** No call of a pass of the site controller fails. */
  ghost predicate IsSmooth(api: SiteApi) {
    api.get && api.read && api.create == Ok && api.save == Ok && api.update == Ok
  }

  /** Exactly what an error-free pass over a deleted site with the finalizer does: it sets the state first;
      then it creates the final Backup where one is asked for and missing, waits for one that has not ended,
      and otherwise takes off the finalizer and nothing else. */
  lemma DeletePassMeans(md5: string -> string, site: FinalBackup.Site, backups: map<string, BackupStatus>, api: SiteApi)
    requires IsDigest(md5) && IsSmooth(api) && SITE_FINALIZER in site.finalizers
    ensures var (site', backups', _) := DeletePass(md5, site, backups, api);
            var final := FinalName(md5, site.name);
            if site.state != StatePending then
              site' == site.(state := StatePending) && backups' == backups
            else if site.backupBeforeDelete && final !in backups then
              && site' == site && backups'.Keys == backups.Keys + {final}
              && (forall n | n in backups :: backups'[n] == backups[n])
              && backups'[final].own.state == Unset && backups'[final].services == map[]
              && backups'[final].own.startedAt == None && backups'[final].own.finishedAt == None
            else if site.backupBeforeDelete && backups[final].own.state != Complete
                && backups[final].own.state != Failed then
              site' == site && backups' == backups
            else
              && backups' == backups && site' == site.(finalizers := site'.finalizers)
              && SITE_FINALIZER !in site'.finalizers
              && (forall f | f != SITE_FINALIZER ::
                    multiset(site'.finalizers)[f] == multiset(site.finalizers)[f])
  {
    hide FinalName;
  }

  /** From the first pass to the release: a pending site that asks for a backup, whose final Backup is
      missing and whose services have no batch jobs of that name.  The Backup is created, goes through
      three error-free passes with its batch jobs succeeding before the last one, and then the next
      error-free pass over the site releases it. */
  lemma DeletedSiteIsReleased(md5: string -> string, site: FinalBackup.Site, s: Store, services: set<string>,
                              configs: Configs, create: SiteApi, first: Walked, second: Walked,
                              batchJobs: map<string, BatchJob>, third: Walked, release: SiteApi)
    requires IsDigest(md5) && IsSmooth(create) && IsSmooth(release)
    requires SITE_FINALIZER in site.finalizers && site.state == StatePending && site.backupBeforeDelete
    requires var final := FinalName(md5, site.name);
             && final !in s.backups && HasDistinctBatches(md5, final, Covered(services, configs))
             && (forall n | n in Covered(services, configs) :: BatchName(md5, n, final) !in s.batchJobs)
             && HaveSucceeded(md5, final, batchJobs, Covered(services, configs))
    requires services <= configs.Keys && Covered(services, configs) != {}
    requires IsGoodWalk(services, configs, first) && IsGoodWalk(services, configs, second)
        && IsGoodWalk(services, configs, third)
    ensures var final := FinalName(md5, site.name);
            var (site1, backups1, _) := DeletePass(md5, site, s.backups, create);
            var s2 := PassOver(md5, PassOver(md5, s.(backups := backups1), final, configs, first), final, configs,
                second);
            var s3 := PassOver(md5, s2.(batchJobs := batchJobs), final, configs, third);
            && SITE_FINALIZER in site1.finalizers
            && final in s3.backups && s3.backups[final].own.state == Complete
            && SITE_FINALIZER !in DeletePass(md5, site1, s3.backups, release).0.finalizers
  {
    var final := FinalName(md5, site.name);
    DeletePassMeans(md5, site, s.backups, create);
    var backups1 := DeletePass(md5, site, s.backups, create).1;
    var s1 := s.(backups := backups1);
    assert backups1[final] == BackupStatus(NO_DETAIL, map[]);
    hide DeletePass, FinalName, BatchName, Covered, IsGoodWalk, HaveSucceeded, PassOver, HasDistinctBatches;
    NewBackupCompletes(md5, s1, final, services, configs, first, second, batchJobs, third);
    var s2 := PassOver(md5, PassOver(md5, s1, final, configs, first), final, configs, second);
    var s3 := PassOver(md5, s2.(batchJobs := batchJobs), final, configs, third);
    DeletePassMeans(md5, site, s3.backups, release);
  }
}
