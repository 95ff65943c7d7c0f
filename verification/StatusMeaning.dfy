/** What the status of a site says after a status pass, field by field in terms of the spec, the time of its
    last change, the clock and the Backups (`controllers/site/stagingsite_controller.go:340-541`). */
module StatusMeaning {
  import opened Iteration
  import opened Jobs
  import opened Names
  import opened Apis
  import opened BackupSchedule
  import opened SiteStatus

  /** So long after the change, or never. */
  ghost predicate IsAfter(time: Option<int>, interval: TimeInterval, changedAt: int) {
    if interval.never then time == None
    else time == Some(changedAt + interval.days * 86400 + interval.hours * 3600 + interval.minutes * 60)
  }

  /** Deadlines and what follows from them. */
  lemma DeadlineFields(frame: Frame, site: Site, listing: seq<string>, sorted: seq<string>, now: int, api: Api)
    requires IsDigest(frame.md5) && site.annotation.ChangedAt?
        && !StatusPass(frame, site, listing, sorted, now, api).failed
    ensures var before, after, spec, at := site.status, StatusPass(frame, site, listing, sorted, now, api).site.status,
                site.spec, site.annotation.at;
            && IsAfter(after.disableAt, spec.disableAfter, at) && IsAfter(after.deleteAt, spec.deleteAfter, at)
            && (after.enabled <==> spec.enabled && (after.disableAt == None || after.disableAt.value > now))
            && after.lastApplied.Some? && after.lastApplied.value >= at
            && (after.lastApplied.value == at || after.lastApplied == before.lastApplied)
            && (before.lastApplied.Some? ==> after.lastApplied.value >= before.lastApplied.value)
            && after.state == (if before.state == NoState || before.enabled != after.enabled then StatePending
                               else before.state)
            && after.hasHealth
  {
    PassValue(frame, site, listing, sorted, now, api);
    hide StatusPass, HandleBackups, Services, Reschedule;
  }

  /** The entries of the services. */
  lemma ServiceFields(frame: Frame, site: Site, listing: seq<string>, sorted: seq<string>, now: int, api: Api)
    requires IsDigest(frame.md5) && site.annotation.ChangedAt?
        && !StatusPass(frame, site, listing, sorted, now, api).failed
    ensures var before, after, spec := site.status.services,
                StatusPass(frame, site, listing, sorted, now, api).site.status.services, site.spec;
            && after.Keys == spec.services.Keys
            && (forall n | n in spec.services ::
                  && n in frame.shortNames
                  && after[n].username == MakeUsername(frame.md5, spec.username, frame.shortNames[n])
                  && after[n].dbName == MakeDatabaseName(frame.md5, spec.dbName, frame.shortNames[n])
                  && after[n].redisNumber == (if n in before then before[n].redisNumber else "0"))
  {
    PassValue(frame, site, listing, sorted, now, api);
    FailedStage(frame, site, listing, sorted, now, api);
    hide StatusPass, HandleBackups, Deadlines, Reschedule, MakeUsername, MakeDatabaseName;
  }

  /** The time of the next backup: none without an hour or for a negative one; kept while it is in the right
      hour; otherwise the first moment from now on, within a day, at the site's own second of that hour. */
  lemma NextFields(frame: Frame, site: Site, listing: seq<string>, sorted: seq<string>, now: int, api: Api)
    requires IsDigest(frame.md5) && site.annotation.ChangedAt?
        && !StatusPass(frame, site, listing, sorted, now, api).failed
    ensures var before, after, hour := site.status.next,
                StatusPass(frame, site, listing, sorted, now, api).site.status.next, site.spec.backupHour;
            if hour == None then after == None
            else if before.Some? && before.value % 86400 / 3600 == hour.value then after == before
            else if hour.value < 0 then after == None
            else
              && 0 <= hour.value <= 23 && after.Some? && now <= after.value < now + 86400
              && after.value % 86400 == hour.value * 3600 + frame.fnv(site.name) % 3600
  {
    PassValue(frame, site, listing, sorted, now, api);
    var hour := site.spec.backupHour;
    if hour.Some? && IsHour(hour.value) {
      NextSlotIsTheOne(frame.fnv, site.name, hour.value, now, NextSlot(frame.fnv, site.name, hour.value, now));
    }
    hide StatusPass, HandleBackups, Deadlines, Services, NextSlot;
  }

  /** The Backups that have ended. */
  ghost function Ended(backups: map<string, Backup>): set<string> {
    set n | n in backups && (backups[n].state == Complete || backups[n].state == Failed)
  }

  /** Retention: a Backup that goes had ended, and had started no later than any ended one that stays. */
  lemma OldestGo(frame: Frame, site: Site, listing: seq<string>, sorted: seq<string>, now: int, api: Api,
                 gone: string, kept: string)
    requires IsDigest(frame.md5) && IsOrderOf(listing, site.backups.Keys) && IsSortedFinished(sorted, site.backups)
    requires var after := StatusPass(frame, site, listing, sorted, now, api).site.backups;
             gone in site.backups && gone !in after && kept in Ended(site.backups) && kept in after
    ensures gone in Ended(site.backups)
    ensures site.backups[gone].startedAt.Some? ==>
              && site.backups[kept].startedAt.Some?
              && site.backups[gone].startedAt.value <= site.backups[kept].startedAt.value
  {
    Retention(frame, site, listing, sorted, now, api);
    hide StatusPass, IsSortedFinished, IsOrderOf, Finished;
  }

  /** Where nothing fails and all Backups are adopted, three that have ended stay, or all if there are fewer. */
  lemma ThreeStay(frame: Frame, site: Site, listing: seq<string>, sorted: seq<string>, now: int, api: Api)
    requires IsDigest(frame.md5) && IsOrderOf(listing, site.backups.Keys) && IsSortedFinished(sorted, site.backups)
    requires !StatusPass(frame, site, listing, sorted, now, api).failed && site.annotation.ChangedAt?
    requires forall n | n in site.backups :: site.backups[n].controlled
    ensures var after := StatusPass(frame, site, listing, sorted, now, api).site.backups;
            |Ended(after)| == if |Ended(site.backups)| < 3 then |Ended(site.backups)| else 3
  {
    Retention(frame, site, listing, sorted, now, api);
    var after := StatusPass(frame, site, listing, sorted, now, api).site.backups;
    hide StatusPass, IsSortedFinished, IsOrderOf;
    assert Finished(after) == Ended(after) && Finished(site.backups) == Ended(site.backups);
  }

  /** The time of the last backup is that of a completed Backup, or was there before. */
  ghost predicate IsFinish(backups: map<string, Backup>, last: Option<int>) {
    exists n :: n in backups && backups[n].state == Complete && backups[n].finishedAt == last
  }

  lemma {:induction false} ScanFindsLast(s: Scan, listing: seq<string>, api: Api)
    requires forall n | n in listing :: n in s.backups
    ensures var s' := ScanBackups(s, listing, api);
            && (s'.last == s.last || IsFinish(s.backups, s'.last))
            && s'.backups.Keys == s.backups.Keys
            && (forall n | n in s.backups :: s'.backups[n] == s.backups[n].(controlled := s'.backups[n].controlled))
  {
    if listing != [] {
      assert forall n | n in listing[..|listing| - 1] :: n in listing;
      ScanFindsLast(s, listing[..|listing| - 1], api);
      var mid, name := ScanBackups(s, listing[..|listing| - 1], api), listing[|listing| - 1];
      if !mid.failed {
        assert mid.backups[name].state == s.backups[name].state;
        if ScanStep(mid, name, api).last != mid.last {
          assert IsFinish(s.backups, ScanStep(mid, name, api).last);
        }
      }
    }
  }

  /** Failures included: the last backup that a pass records is the finish of a completed Backup of the site,
      or the one recorded before. */
  lemma LastIsAFinish(frame: Frame, site: Site, listing: seq<string>, sorted: seq<string>, now: int, api: Api)
    requires IsDigest(frame.md5) && IsOrderOf(listing, site.backups.Keys)
    ensures var last := StatusPass(frame, site, listing, sorted, now, api).site.status.last;
            last == site.status.last || IsFinish(site.backups, last)
  {
    PassAndBackups(frame, site, listing, sorted, now, api);
    ScanFindsLast(Scan(site.backups, site.status.last, [], false, false), listing, api);
    hide StatusPass, ScanBackups, Delete;
  }
}
