/** What an error-free pass over a Backup does to its batch jobs and services, and how a Backup gets from
    its creation to its end (`controllers/job/backup_controller.go:84-286`). */
module BackupProgress {
  import opened Iteration
  import opened Jobs
  import opened Names
  import opened BackupJob
  import opened BackupFinality
  import opened JobOutcomes

  // One service

  ghost predicate IsSettledAs(before: Detail) { before.state == Complete || before.state == Failed }

  /** A service follows its batch job, by the conditions of that batch job. */
  ghost predicate FollowsBatch(before: Detail, batchJob: BatchJob, after: Detail) {
    && after.startedAt == Some(batchJob.createdAt)
    && (after.state == Complete <==> FirstIs(batchJob.conditions, JobComplete))
    && (after.state == Failed <==> FirstIs(batchJob.conditions, JobFailed))
    && (forall i: nat | IsFirst(batchJob.conditions, i) && batchJob.conditions[i].kind == JobComplete ::
          after.finishedAt == Some(batchJob.conditions[i].at))
    && (!FirstIs(batchJob.conditions, JobComplete) ==> after.finishedAt == before.finishedAt)
    && (IsUndecided(batchJob.conditions) ==>
          after.state == if before.state == Unset then Pending else before.state)
  }

  /** A settled service stays, one without a batch job is started now, any other follows its batch job. */
  ghost predicate IsOutcome(before: Detail, batchJobs: map<string, BatchJob>, batchName: string, now: int,
                            after: Detail) {
    if IsSettledAs(before) then after == before
    else if batchName !in batchJobs then after == Detail(Running, Some(now), None)
    else FollowsBatch(before, batchJobs[batchName], after)
  }

  lemma FoundFollows(s: Scan, n: string, batchJob: BatchJob)
    requires s.job.Service(n).state != Unset && !s.job.Service(n).state.IsFinal()
    ensures FollowsBatch(s.job.Service(n), batchJob, FoundService(s, n, batchJob).job.Service(n))
  {
    VerdictIs(batchJob.conditions);
    SomeCondition(batchJob.conditions);
    forall i: nat | IsFirst(batchJob.conditions, i) && batchJob.conditions[i].kind == JobComplete
      ensures FirstVerdict(batchJob.conditions) == Succeeded(batchJob.conditions[i].at)
    {
      assert forall j | 0 <= j < i :: !IsDecisive(batchJob.conditions[j]);
      FirstVerdictIsFirst(batchJob.conditions, i);
    }
    hide FirstIs, IsUndecided, IsFirst, FirstVerdict;
  }

  // The loop

  /** The batch job that a pass creates for a service. */
  ghost predicate IsNewBatch(backup: string, now: int, b: BatchJob) {
    b.kind == Jobs.Backup && b.owner == backup && b.createdAt == now && b.conditions == []
  }

  /** This service needs a batch job. */
  ghost predicate Lacks(md5: string -> string, backup: string, job: BackupStatus, batchJobs: map<string, BatchJob>,
                        n: string)
    requires IsDigest(md5)
  {
    !IsSettledAs(job.Service(n)) && BatchName(md5, n, backup) !in batchJobs
  }

  /** The batch jobs afterwards: those before, and one for every service that lacks it. */
  ghost predicate AddsExactly(md5: string -> string, backup: string, job: BackupStatus,
                              batchJobs: map<string, BatchJob>, names: set<string>, now: int,
                              after: map<string, BatchJob>)
    requires IsDigest(md5)
  {
    && (forall b | b in batchJobs :: b in after && after[b] == batchJobs[b])
    && (forall b | b in after && b !in batchJobs ::
          exists n :: n in names && Lacks(md5, backup, job, batchJobs, n) && b == BatchName(md5, n, backup))
    && (forall n | n in names && Lacks(md5, backup, job, batchJobs, n) ::
          BatchName(md5, n, backup) in after && IsNewBatch(backup, now, after[BatchName(md5, n, backup)]))
  }

  ghost predicate ServicesFollow(md5: string -> string, backup: string, job: BackupStatus,
                                 batchJobs: map<string, BatchJob>, names: set<string>, now: int, after: BackupStatus)
    requires IsDigest(md5)
  {
    && (forall n | n in names ::
          IsOutcome(job.Service(n), batchJobs, BatchName(md5, n, backup), now, after.Service(n)))
    && (forall n | n !in names :: after.Service(n) == job.Service(n))
  }

  lemma StepFollowsBatch(mid: Scan, n: string, batchName: string, backup: string, now: int, api: Api)
    requires mid.job.Service(n).state != Unset && !ServiceStep(mid, n, batchName, backup, now, api).failed
        && !mid.failed
    ensures var after := ServiceStep(mid, n, batchName, backup, now, api);
            && IsOutcome(mid.job.Service(n), mid.batchJobs, batchName, now, after.job.Service(n))
            && (forall m | m != n :: after.job.Service(m) == mid.job.Service(m))
            && (if !IsSettledAs(mid.job.Service(n)) && batchName !in mid.batchJobs then
                  && after.batchJobs.Keys == mid.batchJobs.Keys + {batchName}
                  && (forall b | b in mid.batchJobs :: after.batchJobs[b] == mid.batchJobs[b])
                  && IsNewBatch(backup, now, after.batchJobs[batchName])
                else after.batchJobs == mid.batchJobs)
  {
    if !mid.job.Service(n).state.IsFinal() && batchName in mid.batchJobs {
      FoundFollows(mid, n, mid.batchJobs[batchName]);
      hide FollowsBatch, FirstVerdict;
    }
  }

  /** Every service is walked once, so that it finds its batch job as it was at the beginning. */
  lemma {:induction false} LoopFollows(md5: string -> string, backup: string, s: Scan, order: seq<string>, now: int,
                                       api: Api)
    requires IsDigest(md5) && IsOrderOf(order, ToSet(order)) && HasDistinctBatches(md5, backup, ToSet(order))
    requires !s.failed && !ScanServices(md5, backup, s, order, now, api).failed
    requires forall n | n in order :: s.job.Service(n).state != Unset
    ensures var after := ScanServices(md5, backup, s, order, now, api);
            && AddsExactly(md5, backup, s.job, s.batchJobs, ToSet(order), now, after.batchJobs)
            && ServicesFollow(md5, backup, s.job, s.batchJobs, ToSet(order), now, after.job)
  {
    if order != [] {
      var front, n := order[..|order| - 1], order[|order| - 1];
      assert order == front + [n] && ToSet(order) == ToSet(front) + {n} && n !in ToSet(front);
      assert n in ToSet(order);
      assert forall m | m in ToSet(front) :: m in ToSet(order);
      hide ServiceStep, BatchName, IsOutcome, IsNewBatch;
      LoopFollows(md5, backup, s, front, now, api);
      var mid, after := ScanServices(md5, backup, s, front, now, api), ScanServices(md5, backup, s, order, now, api);
      var batchName := BatchName(md5, n, backup);
      hide ScanServices;
      FindsItsOwn(md5, backup, s, mid.batchJobs, ToSet(front), n, now);
      assert mid.job.Service(n) == s.job.Service(n);
      assert after == ServiceStep(mid, n, batchName, backup, now, api) by { LastStep(md5, backup, s, order, now, api); }
      StepFollowsBatch(mid, n, batchName, backup, now, api);
      SameOutcome(s.job.Service(n), s.batchJobs, mid.batchJobs, batchName, now, after.job.Service(n));
      OneMoreFollows(md5, backup, s, mid, after, ToSet(front), n, now);
    }
  }

  lemma LastStep(md5: string -> string, backup: string, s: Scan, order: seq<string>, now: int, api: Api)
    requires IsDigest(md5) && order != [] && !ScanServices(md5, backup, s, order, now, api).failed
    ensures var mid, n := ScanServices(md5, backup, s, order[..|order| - 1], now, api), order[|order| - 1];
            && !mid.failed
            && ScanServices(md5, backup, s, order, now, api) ==
               ServiceStep(mid, n, BatchName(md5, n, backup), backup, now, api)
  {
    hide ServiceStep;
  }

  lemma FindsItsOwn(md5: string -> string, backup: string, s: Scan, batchJobs: map<string, BatchJob>,
                    names: set<string>, n: string, now: int)
    requires IsDigest(md5) && n !in names && HasDistinctBatches(md5, backup, names + {n})
    requires AddsExactly(md5, backup, s.job, s.batchJobs, names, now, batchJobs)
    ensures BatchName(md5, n, backup) in batchJobs <==> BatchName(md5, n, backup) in s.batchJobs
    ensures BatchName(md5, n, backup) in s.batchJobs ==>
              batchJobs[BatchName(md5, n, backup)] == s.batchJobs[BatchName(md5, n, backup)]
  {
    hide BatchName;
    assert n in names + {n};
    forall m | m in names ensures BatchName(md5, m, backup) != BatchName(md5, n, backup) {
      assert m in names + {n};
    }
  }

  lemma SameOutcome(before: Detail, batchJobs: map<string, BatchJob>, batchJobs': map<string, BatchJob>,
                    batchName: string, now: int, after: Detail)
    requires batchName in batchJobs <==> batchName in batchJobs'
    requires batchName in batchJobs ==> batchJobs[batchName] == batchJobs'[batchName]
    requires IsOutcome(before, batchJobs', batchName, now, after)
    ensures IsOutcome(before, batchJobs, batchName, now, after)
  {
  }

  lemma OneMoreFollows(md5: string -> string, backup: string, s: Scan, mid: Scan, after: Scan, names: set<string>,
                       n: string, now: int)
    requires IsDigest(md5) && n !in names
    requires AddsExactly(md5, backup, s.job, s.batchJobs, names, now, mid.batchJobs)
    requires ServicesFollow(md5, backup, s.job, s.batchJobs, names, now, mid.job)
    requires BatchName(md5, n, backup) in mid.batchJobs <==> BatchName(md5, n, backup) in s.batchJobs
    requires IsOutcome(s.job.Service(n), s.batchJobs, BatchName(md5, n, backup), now, after.job.Service(n))
    requires forall m | m != n :: after.job.Service(m) == mid.job.Service(m)
    requires if Lacks(md5, backup, s.job, s.batchJobs, n) then
               && after.batchJobs.Keys == mid.batchJobs.Keys + {BatchName(md5, n, backup)}
               && (forall b | b in mid.batchJobs :: after.batchJobs[b] == mid.batchJobs[b])
               && IsNewBatch(backup, now, after.batchJobs[BatchName(md5, n, backup)])
             else after.batchJobs == mid.batchJobs
    ensures AddsExactly(md5, backup, s.job, s.batchJobs, names + {n}, now, after.batchJobs)
    ensures ServicesFollow(md5, backup, s.job, s.batchJobs, names + {n}, now, after.job)
  {
    hide BatchName, IsOutcome, IsNewBatch, Lacks;
    var all := names + {n};
    assert n in all && forall m | m in names :: m in all;
    forall b | b in after.batchJobs && b !in s.batchJobs
      ensures exists m :: m in all && Lacks(md5, backup, s.job, s.batchJobs, m) && b == BatchName(md5, m, backup)
    {
      if b in mid.batchJobs {
        var m :| m in names && Lacks(md5, backup, s.job, s.batchJobs, m) && b == BatchName(md5, m, backup);
        assert m in all;
      }
    }
  }

  // The pass

  /** An error-free pass: the batch jobs afterwards are those before and exactly one new one, under the
      generated name, for every covered service that lacks it; such a service is Running since now; every
      other one is settled or follows its batch job. */
  lemma PassFollows(md5: string -> string, backup: string, job: BackupStatus, batchJobs: map<string, BatchJob>,
                    configs: Configs, order: seq<string>, scanOrder: seq<string>, now: int, api: Api)
    requires IsDigest(md5) && NothingFails(job, configs, order, scanOrder, api)
    requires HasDistinctBatches(md5, backup, Covered(ToSet(order), configs))
    ensures var r, names := EnsureJobs(md5, backup, job, batchJobs, configs, order, scanOrder, now, api),
                set n | n in order && n in configs && configs[n];
            && !r.failed
            && AddsExactly(md5, backup, job, batchJobs, names, now, r.batchJobs)
            && ServicesFollow(md5, backup, job, batchJobs, names, now, r.job)
  {
    var names, loaded := Covered(ToSet(order), configs), Loaded(order, configs, api);
    assert names == set n | n in order && n in configs && configs[n];
    var marked := MarkPending(job, loaded);
    MarkedFacts(job, loaded);
    assert forall n | n in order :: n in ToSet(order);
    LoadsCovered(order, configs, api);
    MarksOnly(job, loaded);
    assert ToSet(loaded) == names;
    assert ToSet(scanOrder) == names;
    assert !LoadFails(order, configs, api);
    var start := Scan(marked, batchJobs, marked != job, true, None, false);
    hide MarkPending, Loaded, LoadFails, IsOutcome, BatchName;
    OrderedAlone(scanOrder, names);
    ScanSucceeds(md5, backup, start, scanOrder, now, api);
    assert forall n | n in scanOrder :: n in names;
    if scanOrder == [] {
      assert names == {} by { EmptyOrder(scanOrder, names); }
      NothingFacts(marked, batchJobs, now);
      assert forall n :: marked.Service(n) == job.Service(n);
    } else {
      LoopFollows(md5, backup, start, scanOrder, now, api);
      hide ScanServices, Covered;
      MarkedFollows(md5, backup, job, marked, batchJobs, names, now,
          ScanServices(md5, backup, start, scanOrder, now, api));
    }
  }

  lemma {:induction false} MarksOnly(job: BackupStatus, order: seq<string>)
    ensures forall n | n !in ToSet(order) :: MarkPending(job, order).Service(n) == job.Service(n)
    ensures forall n | n in ToSet(order) :: MarkPending(job, order).Service(n).state != Unset
  {
    if order != [] {
      var front, n := order[..|order| - 1], order[|order| - 1];
      MarksOnly(job, front);
      assert order == front + [n] && ToSet(order) == ToSet(front) + {n};
    }
  }

  /** That a service is marked Pending first does not show in what becomes of it. */
  lemma MarkedFollows(md5: string -> string, backup: string, job: BackupStatus, marked: BackupStatus,
                      batchJobs: map<string, BatchJob>, names: set<string>, now: int, s: Scan)
    requires IsDigest(md5) && (forall n | n !in names :: marked.Service(n) == job.Service(n))
    requires forall n | job.Service(n).state != Unset :: marked.Service(n) == job.Service(n)
    requires forall n :: marked.Service(n) == job.Service(n) || marked.Service(n) == job.Service(n).(state := Pending)
    requires forall n | n in names :: marked.Service(n).state != Unset
    requires AddsExactly(md5, backup, marked, batchJobs, names, now, s.batchJobs)
    requires ServicesFollow(md5, backup, marked, batchJobs, names, now, s.job)
    ensures AddsExactly(md5, backup, job, batchJobs, names, now, Conclude(s).batchJobs)
    ensures ServicesFollow(md5, backup, job, batchJobs, names, now, Conclude(s).job)
  {
    hide BatchName, IsNewBatch;
    assert forall n :: Conclude(s).job.Service(n) == s.job.Service(n);
    assert forall n :: Lacks(md5, backup, marked, batchJobs, n) <==> Lacks(md5, backup, job, batchJobs, n);
    forall n | n in names
      ensures IsOutcome(job.Service(n), batchJobs, BatchName(md5, n, backup), now, s.job.Service(n))
    {
      assert IsOutcome(marked.Service(n), batchJobs, BatchName(md5, n, backup), now, s.job.Service(n));
    }
    hide IsOutcome;
  }

  /** Services whose generated names need no shortening have batch jobs of their own. */
  lemma ShortNamesAreDistinct(md5: string -> string, backup: string, names: set<string>)
    requires IsDigest(md5) && forall n | n in names :: 8 + |n| + |backup| <= 50
    ensures HasDistinctBatches(md5, backup, names)
    ensures forall n | n in names :: BatchName(md5, n, backup) == "backup-" + n + "-" + backup
  {
    forall n | n in names ensures BatchName(md5, n, backup) == "backup-" + n + "-" + backup {
      assert |"backup-" + n + "-" + backup| == 8 + |n| + |backup|;
    }
    forall a, b | a in names && b in names && a != b
      ensures "backup-" + a + "-" + backup != "backup-" + b + "-" + backup
    {
      var s, t := "backup-" + a + "-" + backup, "backup-" + b + "-" + backup;
      assert s[7..|s| - |backup| - 1] == a && t[7..|t| - |backup| - 1] == b;
    }
    hide BatchName;
  }

  // From the first pass to the last

  /** The batch job of every one of the services has succeeded. */
  ghost predicate HaveSucceeded(md5: string -> string, backup: string, batchJobs: map<string, BatchJob>,
                                names: set<string>)
    requires IsDigest(md5)
  {
    forall n | n in names ::
      BatchName(md5, n, backup) in batchJobs && FirstIs(batchJobs[BatchName(md5, n, backup)].conditions, JobComplete)
  }

  /** Once every covered service is Complete or its batch job has succeeded, an error-free pass completes a
      Backup that was not Failed. */
  lemma SucceededCompletes(md5: string -> string, backup: string, job: BackupStatus, batchJobs: map<string, BatchJob>,
                           configs: Configs, order: seq<string>, scanOrder: seq<string>, now: int, api: Api)
    requires IsDigest(md5) && NothingFails(job, configs, order, scanOrder, api) && job.own.state != Failed
    requires HasDistinctBatches(md5, backup, Covered(ToSet(order), configs))
    requires forall n | n in Covered(ToSet(order), configs) && job.Service(n).state != Complete ::
               && job.Service(n).state != Failed && BatchName(md5, n, backup) in batchJobs
               && FirstIs(batchJobs[BatchName(md5, n, backup)].conditions, JobComplete)
    ensures var r := EnsureJobs(md5, backup, job, batchJobs, configs, order, scanOrder, now, api);
            && r.job.own.state == Complete && !r.failed
            && forall n | n in Covered(ToSet(order), configs) :: r.job.Service(n).state == Complete
  {
    var names := Covered(ToSet(order), configs);
    forall n | n in names ensures Find(md5, backup, job, batchJobs, n) == Good {
      if job.Service(n).state != Complete {
        VerdictIs(batchJobs[BatchName(md5, n, backup)].conditions);
      }
    }
    hide EnsureJobs, Find, FirstIs, BatchName;
    OrderIsOfCovered(job, configs, order, scanOrder, api);
    StateAfter(md5, backup, job, batchJobs, configs, order, scanOrder, now, api);
    AllGood(md5, backup, job, batchJobs, names, scanOrder);
    SameNames(order, configs);
    PassFollows(md5, backup, job, batchJobs, configs, order, scanOrder, now, api);
  }

  lemma SameNames(order: seq<string>, configs: Configs)
    ensures Covered(ToSet(order), configs) == set n | n in order && n in configs && configs[n]
  {
  }

  lemma AllGood(md5: string -> string, backup: string, job: BackupStatus, batchJobs: map<string, BatchJob>,
                names: set<string>, order: seq<string>)
    requires IsDigest(md5) && IsOrderOf(order, names) && job.own.state != Failed
    requires forall n | n in names :: Find(md5, backup, job, batchJobs, n) == Good
    ensures !EndsFailed(md5, backup, job, batchJobs, order) && !HasMissing(md5, backup, job, batchJobs, names)
  {
    hide Find;
    EndsAlike(md5, backup, job, batchJobs, names, order);
  }

  /** How the calls of the passes end and in which orders they walk. */
  datatype Walked = Walked(order: seq<string>, scanOrder: seq<string>, now: int, api: Api)

  ghost predicate IsGoodWalk(services: set<string>, configs: Configs, p: Walked) {
    && IsOrderOf(p.order, services) && IsOrderOf(p.scanOrder, Covered(services, configs))
    && ErrorFree(p.api, services)
  }

  function PassOver(md5: string -> string, s: Store, name: string, configs: Configs, p: Walked): Store
    requires IsDigest(md5)
  {
    Reconcile(md5, s, name, configs, p.order, p.scanOrder, p.now, p.api).0
  }

  /** A new Backup, from any store without batch jobs of its: an error-free pass makes it Pending, the next
      one creates the batch jobs, and when these have all succeeded the third one makes it Complete. */
  lemma NewBackupCompletes(md5: string -> string, s: Store, name: string, services: set<string>, configs: Configs,
                           first: Walked, second: Walked, batchJobs: map<string, BatchJob>, third: Walked)
    requires IsDigest(md5) && name in s.backups && s.backups[name] == BackupStatus(NO_DETAIL, map[])
    requires services <= configs.Keys && Covered(services, configs) != {}
    requires HasDistinctBatches(md5, name, Covered(services, configs))
    requires forall n | n in Covered(services, configs) :: BatchName(md5, n, name) !in s.batchJobs
    requires IsGoodWalk(services, configs, first) && IsGoodWalk(services, configs, second)
        && IsGoodWalk(services, configs, third)
    requires HaveSucceeded(md5, name, batchJobs, Covered(services, configs))
    ensures var s1 := PassOver(md5, s, name, configs, first);
            var s2 := PassOver(md5, s1, name, configs, second);
            var s3 := PassOver(md5, s2.(batchJobs := batchJobs), name, configs, third);
            && s1 == s.(backups := s.backups[name := BackupStatus(NO_DETAIL.(state := Pending), map[])])
            && name in s2.backups && s2.backups[name].own.state == Running
            && (forall n | n in Covered(services, configs) ::
                  && s2.backups[name].Service(n) == Detail(Running, Some(second.now), None)
                  && BatchName(md5, n, name) in s2.batchJobs
                  && IsNewBatch(name, second.now, s2.batchJobs[BatchName(md5, n, name)]))
            && name in s3.backups && s3.backups[name].own.state == Complete
            && (forall n | n in Covered(services, configs) :: s3.backups[name].Service(n).state == Complete)
  {
    var pending, names := BackupStatus(NO_DETAIL.(state := Pending), map[]), Covered(services, configs);
    var s1 := PassOver(md5, s, name, configs, first);
    assert s1 == s.(backups := s.backups[name := pending]);
    SecondPass(md5, s1, name, services, configs, second);
    hide BatchName, Covered, FirstIs, IsGoodWalk;
    var s2 := PassOver(md5, s1, name, configs, second);
    ThirdPass(md5, s2.(batchJobs := batchJobs), name, services, configs, third);
  }

  lemma WalkIsGood(job: BackupStatus, services: set<string>, configs: Configs, p: Walked)
    requires IsValid(job) && IsGoodWalk(services, configs, p) && services <= configs.Keys
    ensures ToSet(p.order) == services && NothingFails(job, configs, p.order, p.scanOrder, p.api)
  {
    assert ToSet(p.order) == services;
  }

  lemma SecondPass(md5: string -> string, s: Store, name: string, services: set<string>, configs: Configs, p: Walked)
    requires IsDigest(md5) && name in s.backups
        && s.backups[name] == BackupStatus(NO_DETAIL.(state := Pending), map[])
    requires services <= configs.Keys && Covered(services, configs) != {}
    requires HasDistinctBatches(md5, name, Covered(services, configs)) && IsGoodWalk(services, configs, p)
    requires forall n | n in Covered(services, configs) :: BatchName(md5, n, name) !in s.batchJobs
    ensures var s2 := PassOver(md5, s, name, configs, p);
            && name in s2.backups && s2.backups[name].own.state == Running && IsValid(s2.backups[name])
            && (forall n | n in Covered(services, configs) ::
                  && s2.backups[name].Service(n) == Detail(Running, Some(p.now), None)
                  && BatchName(md5, n, name) in s2.batchJobs
                  && IsNewBatch(name, p.now, s2.batchJobs[BatchName(md5, n, name)]))
  {
    var job, names := s.backups[name], Covered(services, configs);
    WalkIsGood(job, services, configs, p);
    hide IsGoodWalk;
    SameNames(p.order, configs);
    PassFollows(md5, name, job, s.batchJobs, configs, p.order, p.scanOrder, p.now, p.api);
    StateAfter(md5, name, job, s.batchJobs, configs, p.order, p.scanOrder, p.now, p.api);
    PassOutcome(md5, name, job, s.batchJobs, configs, p.order, p.scanOrder, p.now, p.api);
    var r := EnsureJobs(md5, name, job, s.batchJobs, configs, p.order, p.scanOrder, p.now, p.api);
    hide BatchName, NothingFails, EnsureJobs, Covered;
    AllMissing(md5, name, job, s.batchJobs, names, p.scanOrder);
    hide EndsFailed, HasMissing, Find;
    assert r.job != job;
    PassSaves(md5, s, name, configs, p);
  }

  lemma AllMissing(md5: string -> string, backup: string, job: BackupStatus, batchJobs: map<string, BatchJob>,
                   names: set<string>, order: seq<string>)
    requires IsDigest(md5) && IsOrderOf(order, names) && names != {} && job.services == map[]
    requires forall n | n in names :: BatchName(md5, n, backup) !in batchJobs
    ensures !EndsFailed(md5, backup, job, batchJobs, order) && HasMissing(md5, backup, job, batchJobs, names)
  {
    forall n | n in names ensures Find(md5, backup, job, batchJobs, n) == Missing {
    }
    var n :| n in names;
    assert HasMissing(md5, backup, job, batchJobs, names);
    hide Find;
    EndsAlike(md5, backup, job, batchJobs, names, order);
  }

  lemma ThirdPass(md5: string -> string, s: Store, name: string, services: set<string>, configs: Configs, p: Walked)
    requires IsDigest(md5) && name in s.backups && s.backups[name].own.state == Running && IsValid(s.backups[name])
    requires services <= configs.Keys && IsGoodWalk(services, configs, p)
    requires HasDistinctBatches(md5, name, Covered(services, configs))
    requires forall n | n in Covered(services, configs) :: s.backups[name].Service(n).state == Running
    requires HaveSucceeded(md5, name, s.batchJobs, Covered(services, configs))
    ensures var s3 := PassOver(md5, s, name, configs, p);
            && name in s3.backups && s3.backups[name].own.state == Complete
            && (forall n | n in Covered(services, configs) :: s3.backups[name].Service(n).state == Complete)
  {
    var job := s.backups[name];
    WalkIsGood(job, services, configs, p);
    hide IsGoodWalk, BatchName, FirstIs;
    SucceededCompletes(md5, name, job, s.batchJobs, configs, p.order, p.scanOrder, p.now, p.api);
    hide NothingFails, EnsureJobs, Covered, HasDistinctBatches;
    PassSaves(md5, s, name, configs, p);
  }

  /** Changes of the Backup's own status are reported. */
  lemma {:induction false} ScanReports(md5: string -> string, backup: string, s: Scan, order: seq<string>, now: int,
                                       api: Api)
    requires IsDigest(md5)
    ensures var after := ScanServices(md5, backup, s, order, now, api);
            !after.failed && !after.changed ==> after.job.own == s.job.own
  {
    if order != [] {
      hide BatchName, FirstVerdict;
      ScanReports(md5, backup, s, order[..|order| - 1], now, api);
    }
  }

  /** What an error-free pass computes is saved. */
  lemma PassSaves(md5: string -> string, s: Store, name: string, configs: Configs, p: Walked)
    requires IsDigest(md5) && name in s.backups && s.backups[name].own.state != Unset
    requires p.api.get && p.api.save == Ok
    ensures var r := EnsureJobs(md5, name, s.backups[name], s.batchJobs, configs, p.order, p.scanOrder, p.now, p.api);
            var s' := PassOver(md5, s, name, configs, p);
            && s'.batchJobs == r.batchJobs && name in s'.backups
            && (!r.failed && r.job.own != s.backups[name].own ==> s'.backups[name] == r.job)
  {
    var job, loaded := s.backups[name], Loaded(p.order, configs, p.api);
    var marked := MarkPending(job, loaded);
    MarkedFacts(job, loaded);
    ScanReports(md5, name, Scan(marked, s.batchJobs, marked != job, true, None, false), p.scanOrder, p.now, p.api);
    hide MarkPending, Loaded, ScanServices, LoadFails;
  }
}
