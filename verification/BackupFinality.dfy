/** What an error-free pass over a Backup (`controllers/job/backup_controller.go:129-286`) does to its
    state and its recorded start, told from what the pass finds at its beginning; and exactly when
    neither depends on the order in which Go walks the services. */
module BackupFinality {
  import opened Iteration
  import opened Jobs
  import opened Names
  import opened BackupJob

  // What a pass finds

  /** A service has no batch job yet, has failed, is done, or its batch job is still running. */
  datatype Finding = Missing | Bad | Good | Open

  predicate IsFound(md5: string -> string, backup: string, job: BackupStatus, batchJobs: map<string, BatchJob>,
                    n: string)
    requires IsDigest(md5)
  {
    !job.Service(n).state.IsFinal() && BatchName(md5, n, backup) in batchJobs
  }

  function Find(md5: string -> string, backup: string, job: BackupStatus, batchJobs: map<string, BatchJob>,
                n: string): Finding
    requires IsDigest(md5)
  {
    if job.Service(n).state == Failed then Bad
    else if job.Service(n).state == Complete then Good
    else if BatchName(md5, n, backup) !in batchJobs then Missing
    else
      match FirstVerdict(batchJobs[BatchName(md5, n, backup)].conditions)
      case Succeeded(_) => Good
      case Broken => Bad
      case Unfinished => Open
  }

  ghost predicate HasDistinctBatches(md5: string -> string, backup: string, names: set<string>)
    requires IsDigest(md5)
  {
    forall a, b | a in names && b in names && a != b :: BatchName(md5, a, backup) != BatchName(md5, b, backup)
  }

  // The state

  /** The last service that is missing or bad has the last word. */
  function LastWord(md5: string -> string, backup: string, job: BackupStatus, batchJobs: map<string, BatchJob>,
                    order: seq<string>): Option<Finding>
    requires IsDigest(md5)
  {
    if order == [] then None
    else
      var found := Find(md5, backup, job, batchJobs, order[|order| - 1]);
      if found == Missing || found == Bad then Some(found)
          else LastWord(md5, backup, job, batchJobs, order[..|order| - 1])
  }

  function StateBy(word: Option<Finding>, before: JobState): JobState {
    match word
    case Some(Missing) => Running
    case Some(Bad) => Failed
    case _ => before
  }

  // The start

  /** The start as a batch job that is found would have it. */
  function StartWith(md5: string -> string, backup: string, job: BackupStatus, batchJobs: map<string, BatchJob>,
                     n: string): Option<int>
    requires IsDigest(md5)
  {
    if IsFound(md5, backup, job, batchJobs, n) then StartedAt(job.own.startedAt,
        batchJobs[BatchName(md5, n, backup)].createdAt)
    else job.own.startedAt
  }

  /** After this service the pass has something to save, and the starts of batch jobs no longer count. */
  predicate Stirs(md5: string -> string, backup: string, job: BackupStatus, batchJobs: map<string, BatchJob>, n: string)
    requires IsDigest(md5)
  {
    Find(md5, backup, job, batchJobs, n) != Open || StartWith(md5, backup, job, batchJobs, n) != job.own.startedAt
  }

  function FirstStir(md5: string -> string, backup: string, job: BackupStatus, batchJobs: map<string, BatchJob>,
                     order: seq<string>): Option<string>
    requires IsDigest(md5)
  {
    if order == [] then None
    else
      var before, last := FirstStir(md5, backup, job, batchJobs, order[..|order| - 1]), order[|order| - 1];
      if before.Some? then before else if Stirs(md5, backup, job, batchJobs, last) then Some(last) else None
  }

  ghost predicate HasMissing(md5: string -> string, backup: string, job: BackupStatus, batchJobs: map<string, BatchJob>,
                             names: set<string>)
    requires IsDigest(md5)
  {
    exists n :: n in names && Find(md5, backup, job, batchJobs, n) == Missing
  }

  /** A pass that creates a batch job started now at the latest. */
  ghost function StartBy(md5: string -> string, backup: string, job: BackupStatus, batchJobs: map<string, BatchJob>,
                         names: set<string>,
                         base: Option<int>, now: int): Option<int>
    requires IsDigest(md5)
  {
    if HasMissing(md5, backup, job, batchJobs, names) then StartedAt(base, now) else base
  }

  function Base(md5: string -> string, backup: string, s: Scan, order: seq<string>): Option<int>
    requires IsDigest(md5)
  {
    var first := FirstStir(md5, backup, s.job, s.batchJobs, order);
    if s.changed || first == None then s.job.own.startedAt else StartWith(md5, backup, s.job, s.batchJobs, first.value)
  }

  // The loop

  /** Services and batch jobs that the loop has not come to are as they were. */
  ghost predicate IsFrame(md5: string -> string, backup: string, s: Scan, names: set<string>, after: Scan)
    requires IsDigest(md5)
  {
    forall n | n !in names && (forall m | m in names :: BatchName(md5, m, backup) != BatchName(md5, n, backup)) ::
      && after.job.Service(n) == s.job.Service(n)
      && (BatchName(md5, n, backup) in after.batchJobs <==> BatchName(md5, n, backup) in s.batchJobs)
      && (BatchName(md5, n, backup) in s.batchJobs ==>
          after.batchJobs[BatchName(md5, n, backup)] ==
          s.batchJobs[BatchName(md5, n, backup)])
  }

  ghost predicate IsSettled(md5: string -> string, backup: string, s: Scan, n: string)
    requires IsDigest(md5)
  {
    s.job.Service(n).state.IsFinal() || Find(md5, backup, s.job, s.batchJobs, n) == Good
  }

  ghost predicate StateMeans(md5: string -> string, backup: string, s: Scan, order: seq<string>, after: Scan)
    requires IsDigest(md5)
  {
    && after.job.own.state == StateBy(LastWord(md5, backup, s.job, s.batchJobs, order), s.job.own.state)
    && (after.allFinished <==> s.allFinished && forall n | n in order :: IsSettled(md5, backup, s, n))
  }

  ghost predicate StartMeans(md5: string -> string, backup: string, s: Scan, order: seq<string>, now: int, after: Scan)
    requires IsDigest(md5)
  {
    && (after.changed <==> s.changed || FirstStir(md5, backup, s.job, s.batchJobs, order).Some?)
    && (after.last.Some? ==> after.changed)
    && after.job.own.startedAt == StartBy(md5, backup, s.job, s.batchJobs, ToSet(order), Base(md5, backup, s, order),
        now)
  }

  /** One step from a loop state in which this service is as it was at the beginning. */
  lemma StepState(md5: string -> string, backup: string, s: Scan, mid: Scan, n: string, now: int, api: Api)
    requires IsDigest(md5) && !ServiceStep(mid, n, BatchName(md5, n, backup), backup, now, api).failed
    requires mid.job.Service(n) == s.job.Service(n)
    requires BatchName(md5, n, backup) in mid.batchJobs <==> BatchName(md5, n, backup) in s.batchJobs
    requires BatchName(md5, n, backup) in s.batchJobs ==>
        mid.batchJobs[BatchName(md5, n, backup)] ==
        s.batchJobs[BatchName(md5, n, backup)]
    ensures var after, found := ServiceStep(mid, n, BatchName(md5, n, backup), backup, now, api),
        Find(md5, backup, s.job, s.batchJobs, n);
            && after.job.own.state == StateBy(if found == Missing || found == Bad then Some(found) else None,
                mid.job.own.state)
            && (after.allFinished <==> mid.allFinished && IsSettled(md5, backup, s, n))
  {
    hide BatchName;
  }

  lemma StepStart(md5: string -> string, backup: string, s: Scan, mid: Scan, n: string, now: int, api: Api)
    requires IsDigest(md5) && !ServiceStep(mid, n, BatchName(md5, n, backup), backup, now, api).failed
    requires mid.job.Service(n) == s.job.Service(n)
    requires BatchName(md5, n, backup) in mid.batchJobs <==> BatchName(md5, n, backup) in s.batchJobs
    requires BatchName(md5, n, backup) in s.batchJobs ==>
        mid.batchJobs[BatchName(md5, n, backup)] ==
        s.batchJobs[BatchName(md5, n, backup)]
    requires (mid.last.Some? ==> mid.changed) && (!mid.changed ==> mid.job.own.startedAt == s.job.own.startedAt)
    ensures var after := ServiceStep(mid, n, BatchName(md5, n, backup), backup, now, api);
            && (after.changed <==> mid.changed || Stirs(md5, backup, s.job, s.batchJobs, n))
            && (after.last.Some? ==> after.changed)
            && after.job.own.startedAt ==
               if Find(md5, backup, s.job, s.batchJobs, n) == Missing then StartedAt(mid.job.own.startedAt, now)
               else if mid.changed then mid.job.own.startedAt
               else StartWith(md5, backup, s.job, s.batchJobs, n)
  {
    hide BatchName;
  }

  lemma StepFrame(md5: string -> string, backup: string, s: Scan, mid: Scan, names: set<string>, n: string, now: int,
                  api: Api)
    requires IsDigest(md5) && IsFrame(md5, backup, s, names, mid)
    ensures IsFrame(md5, backup, s, names + {n}, ServiceStep(mid, n, BatchName(md5, n, backup), backup, now, api))
  {
    var after := ServiceStep(mid, n, BatchName(md5, n, backup), backup, now, api);
    OnlyTouches(mid, n, BatchName(md5, n, backup), backup, now, api);
    hide ServiceStep, BatchName;
    forall m | m !in names + {n} && (forall k | k in names + {n} ::
        BatchName(md5, k, backup) != BatchName(md5, m, backup))
      ensures after.job.Service(m) == s.job.Service(m)
      ensures BatchName(md5, m, backup) in after.batchJobs <==> BatchName(md5, m, backup) in s.batchJobs
      ensures BatchName(md5, m, backup) in s.batchJobs
          ==> after.batchJobs[BatchName(md5, m, backup)] == s.batchJobs[BatchName(md5, m, backup)]
    {
      assert forall k | k in names :: k in names + {n};
      assert n in names + {n};
    }
  }

  lemma OnlyTouches(mid: Scan, n: string, batchName: string, backup: string, now: int, api: Api)
    ensures var after := ServiceStep(mid, n, batchName, backup, now, api);
            && (forall m | m != n :: after.job.Service(m) == mid.job.Service(m))
            && (forall b | b != batchName :: b in after.batchJobs <==> b in mid.batchJobs)
            && (forall b | b != batchName && b in mid.batchJobs :: after.batchJobs[b] == mid.batchJobs[b])
  {
  }

  lemma {:induction false} LoopMeans(md5: string -> string, backup: string, s: Scan, order: seq<string>, now: int,
                                     api: Api)
    requires IsDigest(md5) && IsOrderOf(order, ToSet(order)) && HasDistinctBatches(md5, backup, ToSet(order))
    requires s.last == None && !ScanServices(md5, backup, s, order, now, api).failed
    ensures var after := ScanServices(md5, backup, s, order, now, api);
            && IsFrame(md5, backup, s, ToSet(order), after)
            && StateMeans(md5, backup, s, order, after) && StartMeans(md5, backup, s, order, now, after)
  {
    hide ServiceStep, BatchName, Find, HasDistinctBatches, IsSettled, StartWith, Stirs;
    if order == [] {
      assert ToSet(order) == {};
    } else {
      var front, n := order[..|order| - 1], order[|order| - 1];
      assert ToSet(order) == ToSet(front) + {n} && n !in ToSet(front);
      DistinctFront(md5, backup, ToSet(front), n);
      LoopMeans(md5, backup, s, front, now, api);
      var mid := ScanServices(md5, backup, s, front, now, api);
      var after := ServiceStep(mid, n, BatchName(md5, n, backup), backup, now, api);
      assert after == ScanServices(md5, backup, s, order, now, api);
      UntouchedSoFar(md5, backup, s, mid, ToSet(front), n);
      StepFrame(md5, backup, s, mid, ToSet(front), n, now, api);
      hide IsFrame, ScanServices;
      StepState(md5, backup, s, mid, n, now, api);
      assert StateMeans(md5, backup, s, order, after) by {
        assert forall m :: m in order <==> m in front || m == n;
      }
      StartStep(md5, backup, s, mid, order, now, api);
    }
  }

  lemma UntouchedSoFar(md5: string -> string, backup: string, s: Scan, mid: Scan, names: set<string>, n: string)
    requires IsDigest(md5) && IsFrame(md5, backup, s, names, mid) && n !in names
        && HasDistinctBatches(md5, backup, names + {n})
    ensures mid.job.Service(n) == s.job.Service(n)
    ensures BatchName(md5, n, backup) in mid.batchJobs <==> BatchName(md5, n, backup) in s.batchJobs
    ensures BatchName(md5, n, backup) in s.batchJobs ==>
        mid.batchJobs[BatchName(md5, n, backup)] ==
        s.batchJobs[BatchName(md5, n, backup)]
  {
    hide BatchName;
  }

  lemma DistinctFront(md5: string -> string, backup: string, names: set<string>, n: string)
    requires IsDigest(md5) && HasDistinctBatches(md5, backup, names + {n})
    ensures HasDistinctBatches(md5, backup, names)
  {
    hide BatchName;
  }

  lemma StartStep(md5: string -> string, backup: string, s: Scan, mid: Scan, order: seq<string>, now: int, api: Api)
    requires IsDigest(md5) && order != [] && s.last == None
    requires var n := order[|order| - 1];
             && !ServiceStep(mid, n, BatchName(md5, n, backup), backup, now, api).failed
             && mid.job.Service(n) == s.job.Service(n)
             && (BatchName(md5, n, backup) in mid.batchJobs <==> BatchName(md5, n, backup) in s.batchJobs)
             && (BatchName(md5, n, backup) in s.batchJobs
                 ==> mid.batchJobs[BatchName(md5, n, backup)] == s.batchJobs[BatchName(md5, n, backup)])
    requires StartMeans(md5, backup, s, order[..|order| - 1], now, mid)
    ensures StartMeans(md5, backup, s, order, now, ServiceStep(mid, order[|order| - 1],
        BatchName(md5, order[|order| - 1], backup), backup, now, api))
  {
    hide ServiceStep, BatchName, Find, StartWith;
    var front, n := order[..|order| - 1], order[|order| - 1];
    MissingStirs(md5, backup, s, front);
    MissingSplits(md5, backup, s, order);
    if Find(md5, backup, s.job, s.batchJobs, n) == Missing {
      MissingIsNotFound(md5, backup, s, n);
    }
    hide HasMissing;
    StepStart(md5, backup, s, mid, n, now, api);
    var after := ServiceStep(mid, n, BatchName(md5, n, backup), backup, now, api);
    var first := FirstStir(md5, backup, s.job, s.batchJobs, front);
    if s.changed || first.Some? {
      assert Base(md5, backup, s, order) == Base(md5, backup, s, front);
    } else {
      assert !mid.changed;
    }
  }

  lemma MissingIsNotFound(md5: string -> string, backup: string, s: Scan, n: string)
    requires IsDigest(md5) && Find(md5, backup, s.job, s.batchJobs, n) == Missing
    ensures StartWith(md5, backup, s.job, s.batchJobs, n) == s.job.own.startedAt
        && Stirs(md5, backup, s.job, s.batchJobs, n)
  {
  }

  lemma MissingSplits(md5: string -> string, backup: string, s: Scan, order: seq<string>)
    requires IsDigest(md5) && order != []
    ensures HasMissing(md5, backup, s.job, s.batchJobs, ToSet(order)) <==>
              || HasMissing(md5, backup, s.job, s.batchJobs, ToSet(order[..|order| - 1]))
              || Find(md5, backup, s.job, s.batchJobs, order[|order| - 1]) == Missing
  {
    hide Find;
    assert ToSet(order) == ToSet(order[..|order| - 1]) + {order[|order| - 1]};
    var n := order[|order| - 1];
    assert n in ToSet(order);
    assert forall m | m in ToSet(order[..|order| - 1]) :: m in ToSet(order);
  }

  /** Creating a batch job is something to save. */
  lemma {:induction false} MissingStirs(md5: string -> string, backup: string, s: Scan, order: seq<string>)
    requires IsDigest(md5)
    ensures HasMissing(md5, backup, s.job, s.batchJobs, ToSet(order))
        ==> FirstStir(md5, backup, s.job, s.batchJobs, order).Some?
  {
    hide Find, StartWith;
    if order != [] {
      MissingSplits(md5, backup, s, order);
      MissingStirs(md5, backup, s, order[..|order| - 1]);
    }
  }

  // The whole pass

  /** Every config exists and no call fails. */
  ghost predicate NothingFails(job: BackupStatus, configs: Configs, order: seq<string>, scanOrder: seq<string>,
                               api: Api) {
    && IsValid(job) && ErrorFree(api, ToSet(order))
    && (forall n | n in order :: n in configs)
    && IsOrderOf(scanOrder, Covered(ToSet(order), configs))
  }

  lemma {:induction false} ScanSucceeds(md5: string -> string, backup: string, s: Scan, order: seq<string>, now: int,
                                        api: Api)
    requires IsDigest(md5) && !s.failed && IsValid(s.job) && ErrorFree(api, ToSet(order))
    ensures var after := ScanServices(md5, backup, s, order, now, api); !after.failed && IsValid(after.job)
  {
    hide ServiceStep, BatchName, IsValid;
    if order != [] {
      var front, n := order[..|order| - 1], order[|order| - 1];
      assert n in ToSet(order) && ToSet(front) <= ToSet(order);
      ScanSucceeds(md5, backup, s, front, now, api);
      StepSucceeds(ScanServices(md5, backup, s, front, now, api), n, BatchName(md5, n, backup), backup, now, api);
    }
  }

  lemma StepSucceeds(s: Scan, n: string, batchName: string, backup: string, now: int, api: Api)
    requires !s.failed && IsValid(s.job) && api.find(n) && api.prepare(n) && api.create(n) == Ok
    ensures var after := ServiceStep(s, n, batchName, backup, now, api); !after.failed && IsValid(after.job)
  {
    var after := ServiceStep(s, n, batchName, backup, now, api);
    OnlyTouches(s, n, batchName, backup, now, api);
    assert s.job.Service(n).state == Complete ==> s.job.Service(n).finishedAt.Some?;
  }

  /** Marking services Pending does not change what the pass finds. */
  lemma MarkedFinds(md5: string -> string, backup: string, job: BackupStatus, batchJobs: map<string, BatchJob>,
                    marked: BackupStatus, n: string)
    requires IsDigest(md5) && marked.own == job.own
    requires forall m | job.Service(m).state != Unset :: marked.Service(m) == job.Service(m)
    requires forall m :: marked.Service(m) == job.Service(m) || marked.Service(m) == job.Service(m).(state := Pending)
    ensures Find(md5, backup, marked, batchJobs, n) == Find(md5, backup, job, batchJobs, n)
    ensures StartWith(md5, backup, marked, batchJobs, n) == StartWith(md5, backup, job, batchJobs, n)
  {
    hide BatchName;
  }

  lemma {:induction false} MarkedReads(md5: string -> string, backup: string, job: BackupStatus,
                                       batchJobs: map<string, BatchJob>, marked: BackupStatus,
                                       order: seq<string>)
    requires IsDigest(md5) && marked.own == job.own
    requires forall n :: Find(md5, backup, marked, batchJobs, n) == Find(md5, backup, job, batchJobs, n)
    requires forall n :: StartWith(md5, backup, marked, batchJobs, n) == StartWith(md5, backup, job, batchJobs, n)
    ensures LastWord(md5, backup, marked, batchJobs, order) == LastWord(md5, backup, job, batchJobs, order)
    ensures FirstStir(md5, backup, marked, batchJobs, order) == FirstStir(md5, backup, job, batchJobs, order)
  {
    hide Find, StartWith;
    if order != [] {
      MarkedReads(md5, backup, job, batchJobs, marked, order[..|order| - 1]);
    }
  }

  /** A covered service that this Backup has not known before. */
  ghost predicate HasNew(job: BackupStatus, names: set<string>) {
    exists n :: n in names && job.Service(n).state == Unset
  }

  lemma {:induction false} MarksExactly(job: BackupStatus, order: seq<string>)
    ensures MarkPending(job, order) != job <==> HasNew(job, ToSet(order))
  {
    if order != [] {
      var front, n := order[..|order| - 1], order[|order| - 1];
      MarksExactly(job, front);
      MarkedFacts(job, front);
      assert order == front + [n] && ToSet(order) == ToSet(front) + {n};
      var before, after := MarkPending(job, front), MarkPending(job, order);
      hide MarkPending;
      MarkOneMore(job, front, n);
      if before.Service(n).state == Unset {
        assert job.Service(n).state == Unset && n in ToSet(order);
      } else if job.Service(n).state == Unset {
        assert before != job;
      }
      assert forall m | m in ToSet(front) :: m in ToSet(order);
    }
  }

  lemma {:induction false} LoadsCovered(order: seq<string>, configs: Configs, api: Api)
    requires (forall n | n in order :: n in configs && api.config(n))
    ensures ToSet(Loaded(order, configs, api)) == Covered(ToSet(order), configs)
  {
    if order != [] {
      var front, n := order[..|order| - 1], order[|order| - 1];
      LoadsCovered(front, configs, api);
      assert order == front + [n];
      assert !LoadFails(front, configs, api);
      var before := Loaded(front, configs, api);
      assert Loaded(order, configs, api) == if configs[n] then before + [n] else before;
      hide Loaded, LoadFails;
      assert ToSet(order) == ToSet(front) + {n};
      assert Covered(ToSet(order), configs) == Covered(ToSet(front), configs) + if configs[n] then {n} else {};
      assert ToSet(before + [n]) == ToSet(before) + {n};
    }
  }

  /** The pass as a loop over what it finds. */
  lemma PassMeans(md5: string -> string, backup: string, job: BackupStatus, batchJobs: map<string, BatchJob>,
                  configs: Configs,
                  order: seq<string>, scanOrder: seq<string>, now: int, api: Api)
    requires IsDigest(md5) && NothingFails(job, configs, order, scanOrder, api) && scanOrder != []
    requires HasDistinctBatches(md5, backup, Covered(ToSet(order), configs))
    ensures var r, names := EnsureJobs(md5, backup, job, batchJobs, configs, order, scanOrder, now, api),
        Covered(ToSet(order), configs);
            var state := StateBy(LastWord(md5, backup, job, batchJobs, scanOrder), job.own.state);
            var first := FirstStir(md5, backup, job, batchJobs, scanOrder);
            && !r.failed
            && r.job.own.state == (if state != Failed && (forall n | n in names ::
                job.Service(n).state == Failed
                || Find(md5, backup, job, batchJobs, n) == Good)
                                   then Complete else state)
            && r.job.own.startedAt ==
               StartBy(md5, backup, job, batchJobs, names,
                       if HasNew(job, names) || first == None then job.own.startedAt
                           else StartWith(md5, backup, job, batchJobs, first.value), now)
  {
    hide BatchName, ServiceStep, ScanServices, MarkPending, Loaded, Find, StartWith, HasDistinctBatches, IsFrame;
    var names, loaded := Covered(ToSet(order), configs), Loaded(order, configs, api);
    LoadsCovered(order, configs, api);
    assert ToSet(scanOrder) == names && names <= ToSet(order);
    var marked := MarkPending(job, loaded);
    MarkedFacts(job, loaded);
    MarksExactly(job, loaded);
    var start := Scan(marked, batchJobs, marked != job, true, None, false);
    FewerErrors(api, ToSet(order), names);
    ScanSucceeds(md5, backup, start, scanOrder, now, api);
    var s := ScanServices(md5, backup, start, scanOrder, now, api);
    assert EnsureJobs(md5, backup, job, batchJobs, configs, order, scanOrder, now, api) == Conclude(s);
    hide EnsureJobs, Covered, HasNew;
    LoopMeans(md5, backup, start, scanOrder, now, api);
    forall n
      ensures Find(md5, backup, marked, batchJobs, n) == Find(md5, backup, job, batchJobs, n)
      ensures StartWith(md5, backup, marked, batchJobs, n) == StartWith(md5, backup, job, batchJobs, n)
    {
      MarkedFinds(md5, backup, job, batchJobs, marked, n);
    }
    MarkedReads(md5, backup, job, batchJobs, marked, scanOrder);
    assert s.allFinished <==> forall n | n in names ::
        job.Service(n).state == Failed
        || Find(md5, backup, job, batchJobs, n) == Good by {
      forall n ensures IsSettled(md5, backup, start, n)
          <==> job.Service(n).state == Failed || Find(md5, backup, job, batchJobs, n) == Good {
        SettledOrGood(md5, backup, job, batchJobs, marked, start, n);
      }
    }
    assert HasMissing(md5, backup, marked, batchJobs, names) <==> HasMissing(md5, backup, job, batchJobs, names);
  }

  lemma SettledOrGood(md5: string -> string, backup: string, job: BackupStatus, batchJobs: map<string, BatchJob>,
                      marked: BackupStatus, start: Scan, n: string)
    requires IsDigest(md5) && start.job == marked && start.batchJobs == batchJobs
    requires forall m | job.Service(m).state != Unset :: marked.Service(m) == job.Service(m)
    requires forall m :: marked.Service(m) == job.Service(m) || marked.Service(m) == job.Service(m).(state := Pending)
    ensures IsSettled(md5, backup, start, n) <==>
        job.Service(n).state == Failed
        || Find(md5, backup, job, batchJobs, n) == Good
  {
    hide BatchName;
  }

  lemma FewerErrors(api: Api, names: set<string>, fewer: set<string>)
    requires ErrorFree(api, names) && fewer <= names
    ensures ErrorFree(api, fewer)
  {
  }

  // The state after the pass

  ghost predicate HasBad(md5: string -> string, backup: string, job: BackupStatus, batchJobs: map<string, BatchJob>,
                         names: set<string>)
    requires IsDigest(md5)
  {
    exists n :: n in names && Find(md5, backup, job, batchJobs, n) == Bad
  }

  /** A failed service that comes after every service without a batch job. */
  ghost predicate BadAfterMissing(md5: string -> string, backup: string, job: BackupStatus,
                                  batchJobs: map<string, BatchJob>, order: seq<string>)
    requires IsDigest(md5)
  {
    exists i :: 0 <= i < |order| && Find(md5, backup, job, batchJobs, order[i]) == Bad
                && forall j | 0 <= j < |order| && Find(md5, backup, job, batchJobs, order[j]) == Missing :: j < i
  }

  ghost predicate EndsFailed(md5: string -> string, backup: string, job: BackupStatus, batchJobs: map<string, BatchJob>,
                             order: seq<string>)
    requires IsDigest(md5)
  {
    || (!HasMissing(md5, backup, job, batchJobs, ToSet(order))
        && (job.own.state == Failed || HasBad(md5, backup, job, batchJobs, ToSet(order))))
    || BadAfterMissing(md5, backup, job, batchJobs, order)
  }

  lemma {:induction false} LastWordMeans(md5: string -> string, backup: string, job: BackupStatus,
                                         batchJobs: map<string, BatchJob>, order: seq<string>)
    requires IsDigest(md5)
    ensures var word := LastWord(md5, backup, job, batchJobs, order);
            && (word == Some(Bad) <==> BadAfterMissing(md5, backup, job, batchJobs, order))
            && (word == None <==>
                !HasMissing(md5, backup, job, batchJobs, ToSet(order))
                && !HasBad(md5, backup, job, batchJobs, ToSet(order)))
            && (word.Some? ==> word.value == Bad || word.value == Missing)
  {
    hide Find;
    if order != [] {
      var front, n := order[..|order| - 1], order[|order| - 1];
      LastWordMeans(md5, backup, job, batchJobs, front);
      assert ToSet(order) == ToSet(front) + {n} && n in ToSet(order);
      assert forall m | m in ToSet(front) :: m in ToSet(order);
      assert forall i | 0 <= i < |front| :: order[i] == front[i];
      var found := Find(md5, backup, job, batchJobs, n);
      if found == Bad {
        assert order[|front|] == n;
      } else if found == Missing {
        assert order[|front|] == n;
      } else if BadAfterMissing(md5, backup, job, batchJobs, front) {
        var i :| 0 <= i < |front| && Find(md5, backup, job, batchJobs, front[i]) == Bad
                 && forall j | 0 <= j < |front| && Find(md5, backup, job, batchJobs, front[j]) == Missing :: j < i;
        assert Find(md5, backup, job, batchJobs, order[i]) == Bad;
      }
    }
  }

  lemma {:induction false} BadWithoutMissing(md5: string -> string, backup: string, job: BackupStatus,
                                             batchJobs: map<string, BatchJob>, order: seq<string>)
    requires IsDigest(md5) && !HasMissing(md5, backup, job, batchJobs, ToSet(order))
    ensures HasBad(md5, backup, job, batchJobs, ToSet(order)) <==> BadAfterMissing(md5, backup, job, batchJobs, order)
  {
    LastWordMeans(md5, backup, job, batchJobs, order);
    hide Find, BadAfterMissing;
    if LastWord(md5, backup, job, batchJobs, order) == Some(Missing) {
      MissingIsSaid(md5, backup, job, batchJobs, order);
    }
  }

  lemma {:induction false} MissingIsSaid(md5: string -> string, backup: string, job: BackupStatus,
                                         batchJobs: map<string, BatchJob>, order: seq<string>)
    requires IsDigest(md5) && LastWord(md5, backup, job, batchJobs, order) == Some(Missing)
    ensures HasMissing(md5, backup, job, batchJobs, ToSet(order))
  {
    hide Find;
    var front, n := order[..|order| - 1], order[|order| - 1];
    assert n in ToSet(order) && forall m | m in ToSet(front) :: m in ToSet(order);
    if Find(md5, backup, job, batchJobs, n) != Missing {
      MissingIsSaid(md5, backup, job, batchJobs, front);
    }
  }

  /** The state of a Backup after a pass without a failing call, for every state it may be in and every
      order, from what the pass finds.  A site with nothing to back up completes even a Failed Backup. */
  lemma StateAfter(md5: string -> string, backup: string, job: BackupStatus, batchJobs: map<string, BatchJob>,
                   configs: Configs,
                   order: seq<string>, scanOrder: seq<string>, now: int, api: Api)
    requires IsDigest(md5) && NothingFails(job, configs, order, scanOrder, api)
    requires HasDistinctBatches(md5, backup, Covered(ToSet(order), configs))
    ensures var r, names := EnsureJobs(md5, backup, job, batchJobs, configs, order, scanOrder, now, api),
        Covered(ToSet(order), configs);
            && !r.failed
            && r.job.own.state ==
               if names == {} then Complete
               else if EndsFailed(md5, backup, job, batchJobs, scanOrder) then Failed
               else if HasMissing(md5, backup, job, batchJobs, names) then Running
               else if forall n | n in names :: Find(md5, backup, job, batchJobs, n) == Good then Complete
               else job.own.state
  {
    var names := Covered(ToSet(order), configs);
    EmptyOrder(scanOrder, names);
    assert ToSet(scanOrder) == names;
    if scanOrder == [] {
      assert !LoadFails(order, configs, api);
    } else {
      PassMeans(md5, backup, job, batchJobs, configs, order, scanOrder, now, api);
      LastWordMeans(md5, backup, job, batchJobs, scanOrder);
      if !HasMissing(md5, backup, job, batchJobs, names) {
        BadWithoutMissing(md5, backup, job, batchJobs, scanOrder);
      }
      FailedIsBad(md5, backup, job, batchJobs, names);
      hide EnsureJobs, Find, Covered, BadAfterMissing, NothingFails, LastWord;
    }
  }

  lemma FailedIsBad(md5: string -> string, backup: string, job: BackupStatus, batchJobs: map<string, BatchJob>,
                    names: set<string>)
    requires IsDigest(md5)
    ensures forall n | n in names && job.Service(n).state == Failed :: Find(md5, backup, job, batchJobs, n) == Bad
    ensures forall n | n in names && Find(md5, backup, job, batchJobs, n) == Missing :: job.Service(n).state != Failed
  {
  }

  /** Finality, exactly: a Complete Backup stays Complete if and only if no covered service has failed or
      lacks its batch job. */
  lemma CompleteStaysExactly(md5: string -> string, backup: string, job: BackupStatus, batchJobs: map<string, BatchJob>,
                             configs: Configs,
                             order: seq<string>, scanOrder: seq<string>, now: int, api: Api)
    requires IsDigest(md5) && NothingFails(job, configs, order, scanOrder, api) && job.own.state == Complete
    requires HasDistinctBatches(md5, backup, Covered(ToSet(order), configs))
    ensures var names := Covered(ToSet(order), configs);
            EnsureJobs(md5, backup, job, batchJobs, configs, order, scanOrder, now, api).job.own.state == Complete <==>
              !HasMissing(md5, backup, job, batchJobs, names) && !HasBad(md5, backup, job, batchJobs, names)
  {
    hide EnsureJobs, Find, Covered, NothingFails;
    var names := Covered(ToSet(order), configs);
    StateAfter(md5, backup, job, batchJobs, configs, order, scanOrder, now, api);
    OrderIsOfCovered(job, configs, order, scanOrder, api);
    if !HasMissing(md5, backup, job, batchJobs, names) {
      BadWithoutMissing(md5, backup, job, batchJobs, scanOrder);
    }
    hide BadAfterMissing;
  }

  lemma OrderIsOfCovered(job: BackupStatus, configs: Configs, order: seq<string>, scanOrder: seq<string>, api: Api)
    requires NothingFails(job, configs, order, scanOrder, api)
    ensures IsOrderOf(scanOrder, Covered(ToSet(order), configs)) && ToSet(scanOrder) == Covered(ToSet(order), configs)
    ensures forall o :: IsOrderOf(o, Covered(ToSet(order), configs)) ==> NothingFails(job, configs, order, o, api)
    ensures forall o :: IsOrderOf(o, Covered(ToSet(order), configs)) ==> ToSet(o) == Covered(ToSet(order), configs)
  {
  }

  /** The state the pass leaves when it walks the covered services in the order `o`. */
  ghost function StateOf(md5: string -> string, backup: string, job: BackupStatus, batchJobs: map<string, BatchJob>,
                         configs: Configs,
                         order: seq<string>, o: seq<string>, now: int, api: Api): JobState
    requires IsDigest(md5)
  {
    EnsureJobs(md5, backup, job, batchJobs, configs, order, o, now, api).job.own.state
  }

  /** A bad service at the end of the walk fails the Backup, a missing one does not. */
  lemma LastDecides(md5: string -> string, backup: string, job: BackupStatus, batchJobs: map<string, BatchJob>,
                    o: seq<string>)
    requires IsDigest(md5) && o != []
    ensures Find(md5, backup, job, batchJobs, o[|o| - 1]) == Bad ==> EndsFailed(md5, backup, job, batchJobs, o)
    ensures Find(md5, backup, job, batchJobs, o[|o| - 1]) == Missing ==> !EndsFailed(md5, backup, job, batchJobs, o)
  {
    hide Find;
    assert o[|o| - 1] in ToSet(o);
  }

  /** The state after the pass is the same for every order if and only if there is not both a service
      without a batch job and a failed one. */
  lemma StateIsOrderFreeExactly(md5: string -> string, backup: string, job: BackupStatus,
                                batchJobs: map<string, BatchJob>, configs: Configs,
                                order: seq<string>, scanOrder: seq<string>, now: int, api: Api)
    requires IsDigest(md5) && NothingFails(job, configs, order, scanOrder, api)
    requires HasDistinctBatches(md5, backup, Covered(ToSet(order), configs))
    ensures var names := Covered(ToSet(order), configs);
            (forall a, b :: IsOrderOf(a, names) && IsOrderOf(b, names) ==>
               StateOf(md5, backup, job, batchJobs, configs, order, a, now, api) ==
                   StateOf(md5, backup, job, batchJobs, configs, order, b, now, api))
            <==> !(HasMissing(md5, backup, job, batchJobs, names) && HasBad(md5, backup, job, batchJobs, names))
  {
    hide EnsureJobs, Find, Covered, NothingFails, BadAfterMissing;
    var names := Covered(ToSet(order), configs);
    OrderIsOfCovered(job, configs, order, scanOrder, api);
    if HasMissing(md5, backup, job, batchJobs, names) && HasBad(md5, backup, job, batchJobs, names) {
      var missing :| missing in names && Find(md5, backup, job, batchJobs, missing) == Missing;
      var bad :| bad in names && Find(md5, backup, job, batchJobs, bad) == Bad;
      var a := OrderTo(names, missing);
      var b := OrderTo(names, bad);
      LastDecides(md5, backup, job, batchJobs, a);
      LastDecides(md5, backup, job, batchJobs, b);
      StateAfter(md5, backup, job, batchJobs, configs, order, a, now, api);
      StateAfter(md5, backup, job, batchJobs, configs, order, b, now, api);
      assert StateOf(md5, backup, job, batchJobs, configs, order, a, now, api) != StateOf(md5, backup, job, batchJobs,
          configs, order, b, now, api);
    } else {
      forall a, b | IsOrderOf(a, names) && IsOrderOf(b, names)
        ensures StateOf(md5, backup, job, batchJobs, configs, order, a, now, api) ==
            StateOf(md5, backup, job, batchJobs, configs, order, b, now, api)
      {
        StateAfter(md5, backup, job, batchJobs, configs, order, a, now, api);
        StateAfter(md5, backup, job, batchJobs, configs, order, b, now, api);
        EndsAlike(md5, backup, job, batchJobs, names, a);
        EndsAlike(md5, backup, job, batchJobs, names, b);
      }
    }
  }

  lemma EndsAlike(md5: string -> string, backup: string, job: BackupStatus, batchJobs: map<string, BatchJob>,
                  names: set<string>, o: seq<string>)
    requires IsDigest(md5) && IsOrderOf(o, names)
    requires !(HasMissing(md5, backup, job, batchJobs, names) && HasBad(md5, backup, job, batchJobs, names))
    ensures EndsFailed(md5, backup, job, batchJobs, o) <==>
            !HasMissing(md5, backup, job, batchJobs, names)
                && (job.own.state == Failed || HasBad(md5, backup, job, batchJobs, names))
  {
    hide Find;
    assert ToSet(o) == names;
    if BadAfterMissing(md5, backup, job, batchJobs, o) {
      var i :| 0 <= i < |o| && Find(md5, backup, job, batchJobs, o[i]) == Bad;
      assert o[i] in names;
    }
  }

  // The recorded start

  ghost predicate HasStir(md5: string -> string, backup: string, job: BackupStatus, batchJobs: map<string, BatchJob>,
                          names: set<string>)
    requires IsDigest(md5)
  {
    exists n :: n in names && Stirs(md5, backup, job, batchJobs, n)
  }

  /** The start when this service is the first to give the pass something to save. */
  ghost function StartVia(md5: string -> string, backup: string, job: BackupStatus, batchJobs: map<string, BatchJob>,
                          names: set<string>, n: string, now: int):
    Option<int>
    requires IsDigest(md5)
  {
    StartBy(md5, backup, job, batchJobs, names, StartWith(md5, backup, job, batchJobs, n), now)
  }

  lemma {:induction false} FirstStirMeans(md5: string -> string, backup: string, job: BackupStatus,
                                          batchJobs: map<string, BatchJob>, order: seq<string>)
    requires IsDigest(md5)
    ensures var first := FirstStir(md5, backup, job, batchJobs, order);
            && (first.Some? <==> HasStir(md5, backup, job, batchJobs, ToSet(order)))
            && (first.Some? ==> first.value in ToSet(order) && Stirs(md5, backup, job, batchJobs, first.value))
            && (order != [] && Stirs(md5, backup, job, batchJobs, order[0]) ==> first == Some(order[0]))
  {
    hide Stirs;
    if order != [] {
      var front, n := order[..|order| - 1], order[|order| - 1];
      FirstStirMeans(md5, backup, job, batchJobs, front);
      assert ToSet(order) == ToSet(front) + {n} && n in ToSet(order);
      assert forall m | m in ToSet(front) :: m in ToSet(order);
      assert front != [] ==> order[0] == front[0];
    }
  }

  /** The start after a pass without a failing call. */
  lemma StartAfter(md5: string -> string, backup: string, job: BackupStatus, batchJobs: map<string, BatchJob>,
                   configs: Configs,
                   order: seq<string>, scanOrder: seq<string>, now: int, api: Api)
    requires IsDigest(md5) && NothingFails(job, configs, order, scanOrder, api) && scanOrder != []
    requires HasDistinctBatches(md5, backup, Covered(ToSet(order), configs))
    ensures var r, names := EnsureJobs(md5, backup, job, batchJobs, configs, order, scanOrder, now, api),
        Covered(ToSet(order), configs);
            var first := FirstStir(md5, backup, job, batchJobs, scanOrder);
            && (HasNew(job, names) || first == None ==>
                r.job.own.startedAt ==
                StartBy(md5, backup, job, batchJobs, names, job.own.startedAt, now))
            && (!HasNew(job, names) && first.Some? ==>
                r.job.own.startedAt ==
                StartVia(md5, backup, job, batchJobs, names, first.value, now))
  {
    PassMeans(md5, backup, job, batchJobs, configs, order, scanOrder, now, api);
    hide EnsureJobs, Find, Covered, NothingFails, StartWith, StartBy, FirstStir, HasNew, LastWord;
  }

  ghost function StartOf(md5: string -> string, backup: string, job: BackupStatus, batchJobs: map<string, BatchJob>,
                         configs: Configs,
                         order: seq<string>, o: seq<string>, now: int, api: Api): Option<int>
    requires IsDigest(md5)
  {
    EnsureJobs(md5, backup, job, batchJobs, configs, order, o, now, api).job.own.startedAt
  }

  /** The recorded start is the same for every order if and only if the Backup covers a service that is
      new to it, or all services that give the pass something to save lead to the same start. */
  lemma StartIsOrderFreeExactly(md5: string -> string, backup: string, job: BackupStatus,
                                batchJobs: map<string, BatchJob>, configs: Configs,
                                order: seq<string>, scanOrder: seq<string>, now: int, api: Api)
    requires IsDigest(md5) && NothingFails(job, configs, order, scanOrder, api) && scanOrder != []
    requires HasDistinctBatches(md5, backup, Covered(ToSet(order), configs))
    ensures var names := Covered(ToSet(order), configs);
            (forall a, b :: IsOrderOf(a, names) && IsOrderOf(b, names) ==>
               StartOf(md5, backup, job, batchJobs, configs, order, a, now, api) ==
                   StartOf(md5, backup, job, batchJobs, configs, order, b, now, api))
            <==>
            || HasNew(job, names)
            || forall m, n ::
                 m in names && n in names
                 && Stirs(md5, backup, job, batchJobs, m) && Stirs(md5, backup, job, batchJobs, n)
                 ==>
                   StartVia(md5, backup, job, batchJobs, names, m, now)
                   == StartVia(md5, backup, job, batchJobs, names, n, now)
  {
    hide EnsureJobs, Find, Covered, NothingFails, Stirs, StartVia, StartBy, HasNew, FirstStir, HasStir;
    var names := Covered(ToSet(order), configs);
    OrderIsOfCovered(job, configs, order, scanOrder, api);
    EmptyOrder(scanOrder, names);
    forall o | IsOrderOf(o, names)
      ensures StartIs(md5, backup, job, batchJobs, configs, order, o, names, now, api)
    {
      EmptyOrder(o, names);
      StartAfter(md5, backup, job, batchJobs, configs, order, o, now, api);
      FirstStirMeans(md5, backup, job, batchJobs, o);
    }
    if !HasNew(job, names) &&
       exists m, n :: m in names && n in names && Stirs(md5, backup, job, batchJobs, m)
           && Stirs(md5, backup, job, batchJobs, n) &&
         StartVia(md5, backup, job, batchJobs, names, m, now) != StartVia(md5, backup, job, batchJobs, names, n, now)
    {
      var m, n :| m in names && n in names && Stirs(md5, backup, job, batchJobs, m)
          && Stirs(md5, backup, job, batchJobs, n) &&
        StartVia(md5, backup, job, batchJobs, names, m, now) != StartVia(md5, backup, job, batchJobs, names, n, now);
      var a := OrderFrom(names, m);
      var b := OrderFrom(names, n);
      assert StartIs(md5, backup, job, batchJobs, configs, order, a, names, now, api);
      assert StartIs(md5, backup, job, batchJobs, configs, order, b, names, now, api);
      assert StartOf(md5, backup, job, batchJobs, configs, order, a, now, api) != StartOf(md5, backup, job, batchJobs,
          configs, order, b, now, api);
    }
  }

  /** What `StartAfter` and `FirstStirMeans` say of one order. */
  ghost predicate StartIs(md5: string -> string, backup: string, job: BackupStatus, batchJobs: map<string, BatchJob>,
                          configs: Configs,
                          order: seq<string>, o: seq<string>, names: set<string>, now: int, api: Api)
    requires IsDigest(md5) && o != []
  {
    var first, start := FirstStir(md5, backup, job, batchJobs, o),
        StartOf(md5, backup, job, batchJobs, configs, order, o, now, api);
    && (first.Some? <==> HasStir(md5, backup, job, batchJobs, names))
    && (first.Some? ==> first.value in names && Stirs(md5, backup, job, batchJobs, first.value))
    && (Stirs(md5, backup, job, batchJobs, o[0]) ==> first == Some(o[0]))
    && (HasNew(job, names) || first == None ==>
        start ==
        StartBy(md5, backup, job, batchJobs, names, job.own.startedAt, now))
    && (!HasNew(job, names) && first.Some? ==> start == StartVia(md5, backup, job, batchJobs, names, first.value, now))
  }
}
