/** Which answer the migration and the init job controller give, in terms of the condition list of the
    batch job and of the fields of the job (`controllers/job/dbmigrationjob_controller.go:74-221`,
    `controllers/job/dbinitjob_controller.go:78-242`). */
module JobOutcomes {
  import opened Jobs
  import opened Names
  import M = MigrationJob
  import I = InitJob

  // The conditions, by index

  ghost predicate IsDecisive(c: Condition) { c.isTrue && (c.kind == JobComplete || c.kind == JobFailed) }

  /** Condition `i` is the first that is true and says that the batch job has ended. */
  ghost predicate IsFirst(conditions: seq<Condition>, i: nat) {
    i < |conditions| && IsDecisive(conditions[i]) && forall j | 0 <= j < i :: !IsDecisive(conditions[j])
  }

  ghost predicate FirstIs(conditions: seq<Condition>, kind: ConditionType) {
    exists i: nat :: IsFirst(conditions, i) && conditions[i].kind == kind
  }

  ghost predicate IsUndecided(conditions: seq<Condition>) {
    forall i | 0 <= i < |conditions| :: !IsDecisive(conditions[i])
  }

  lemma {:induction false} UndecidedVerdict(conditions: seq<Condition>)
    requires IsUndecided(conditions)
    ensures FirstVerdict(conditions) == Unfinished
  {
    if conditions != [] {
      assert !IsDecisive(conditions[0]);
      assert forall i | 0 <= i < |conditions[1..]| :: conditions[1..][i] == conditions[i + 1];
      UndecidedVerdict(conditions[1..]);
    }
  }

  lemma {:induction false} SomeCondition(conditions: seq<Condition>)
    ensures IsUndecided(conditions) || FirstIs(conditions, JobComplete) || FirstIs(conditions, JobFailed)
    ensures !(FirstIs(conditions, JobComplete) && FirstIs(conditions, JobFailed))
    ensures IsUndecided(conditions) ==> !FirstIs(conditions, JobComplete) && !FirstIs(conditions, JobFailed)
  {
    if i :| 0 <= i < |conditions| && IsDecisive(conditions[i]) {
      FirstDecisive(conditions, i);
    }
  }

  lemma {:induction false} FirstDecisive(conditions: seq<Condition>, i: nat)
    requires i < |conditions| && IsDecisive(conditions[i])
    ensures FirstIs(conditions, JobComplete) || FirstIs(conditions, JobFailed)
  {
    if j :| 0 <= j < i && IsDecisive(conditions[j]) {
      FirstDecisive(conditions, j);
    } else {
      assert IsFirst(conditions, i);
      assert FirstIs(conditions, conditions[i].kind);
    }
  }

  lemma VerdictIs(conditions: seq<Condition>)
    ensures FirstVerdict(conditions).Succeeded? <==> FirstIs(conditions, JobComplete)
    ensures FirstVerdict(conditions).Broken? <==> FirstIs(conditions, JobFailed)
  {
    SomeCondition(conditions);
    if IsUndecided(conditions) {
      UndecidedVerdict(conditions);
    } else {
      var kind := if FirstIs(conditions, JobComplete) then JobComplete else JobFailed;
      var i: nat :| IsFirst(conditions, i) && conditions[i].kind == kind;
      assert forall j | 0 <= j < i :: !conditions[j].isTrue || conditions[j].kind == OtherType;
      FirstVerdictIsFirst(conditions, i);
    }
  }

  // A running job with its batch job

  /** The batch job `n`, and no other one, is of the kind and bears the name of the owner. */
  ghost predicate IsItsOnly(batchJobs: map<string, BatchJob>, kind: JobKind, owner: string, n: string) {
    && n in batchJobs && batchJobs[n].kind == kind && batchJobs[n].owner == owner
    && forall m | m in batchJobs && batchJobs[m].kind == kind && batchJobs[m].owner == owner :: m == n
  }

  lemma OnlyIsListed(batchJobs: map<string, BatchJob>, kind: JobKind, owner: string, n: string)
    requires IsItsOnly(batchJobs, kind, owner, n)
    ensures Owned(batchJobs, kind, owner) == {n}
    ensures ListingVerdict(batchJobs, Owned(batchJobs, kind, owner)) == FirstVerdict(batchJobs[n].conditions)
  {
    assert Owned(batchJobs, kind, owner) == {n};
  }

  /** What becomes of the status of a job whose batch job has these conditions. */
  ghost predicate FollowsConditions(before: JobStatus, conditions: seq<Condition>, now: int, after: JobStatus) {
    && (after.state == Complete <==> FirstIs(conditions, JobComplete))
    && (after.state == Failed <==>
        FirstIs(conditions, JobFailed)
        || (IsUndecided(conditions) && before.deadline.Some? && now > before.deadline.value))
    && (after.state == Complete || after.state == Failed || after.state == Running)
    && after.notFound == 0 && after.deadline == before.deadline
  }

  /** What becomes of the status of a job without a batch job. */
  ghost predicate CountsMiss(before: JobStatus, after: JobStatus) {
    && after.notFound == (if before.notFound == 0xffff_ffff then 0 else before.notFound + 1)
    && after.state == (if after.notFound > 5 then Failed else Running)
    && after.deadline == before.deadline
  }

  lemma StepFollows(status: JobStatus, conditions: seq<Condition>, now: int)
    requires status.state == Running && status.deadline.Some?
    ensures FollowsConditions(status, conditions, now, RunningStep(status, 1, FirstVerdict(conditions), now).0)
    ensures RunningStep(status, 1, FirstVerdict(conditions), now).1
            || RunningStep(status, 1, FirstVerdict(conditions), now).0 == status
  {
    VerdictIs(conditions);
    SomeCondition(conditions);
    hide FirstIs, IsUndecided, FirstVerdict;
  }

  lemma StepCounts(status: JobStatus, found: nat, verdict: Verdict, now: int)
    requires status.state == Running && status.notFound < UINT32 && found != 1
    ensures CountsMiss(status, RunningStep(status, found, verdict, now).0)
    ensures RunningStep(status, found, verdict, now).1
  {
  }

  /** The answer of an error-free pass over a running migration job that has one batch job. */
  lemma MigrationFollows(md5: string -> string, s: M.Store, name: string, n: string, now: int, api: M.Api)
    requires IsDigest(md5) && api.ErrorFree() && name in s.jobs && s.jobs[name].tag == s.jobs[name].lastTag
    requires s.jobs[name].status.state == Running && s.jobs[name].status.deadline.Some?
    requires IsItsOnly(s.batchJobs, Migration, name, n)
    ensures var s' := M.Reconcile(md5, s, name, now, api).0;
            && s'.batchJobs == s.batchJobs && name in s'.jobs
            && s'.jobs == s.jobs[name := s.jobs[name].(status := s'.jobs[name].status)]
            && FollowsConditions(s.jobs[name].status, s.batchJobs[n].conditions, now, s'.jobs[name].status)
  {
    OnlyIsListed(s.batchJobs, Migration, name, n);
    StepFollows(s.jobs[name].status, s.batchJobs[n].conditions, now);
    assert s.jobs[name].(status := s.jobs[name].status) == s.jobs[name];
    assert s.jobs[name := s.jobs[name]] == s.jobs;
    hide FollowsConditions, RunningStep, ListingVerdict;
  }

  /** The answer of an error-free pass over a running init job that has one batch job. */
  lemma InitFollows(md5: string -> string, s: I.Store, name: string, n: string, now: int, api: I.Api)
    requires IsDigest(md5) && api.ErrorFree() && name in s.jobs
    requires s.jobs[name].status.state == Running && s.jobs[name].status.deadline.Some?
    requires IsItsOnly(s.batchJobs, Init, name, n)
    ensures var s' := I.Reconcile(md5, s, name, now, api).0;
            && s'.batchJobs == s.batchJobs && name in s'.jobs
            && s'.jobs == s.jobs[name := s.jobs[name].(status := s'.jobs[name].status)]
            && FollowsConditions(s.jobs[name].status, s.batchJobs[n].conditions, now, s'.jobs[name].status)
  {
    OnlyIsListed(s.batchJobs, Init, name, n);
    StepFollows(s.jobs[name].status, s.batchJobs[n].conditions, now);
    assert s.jobs[name].(status := s.jobs[name].status) == s.jobs[name];
    assert s.jobs[name := s.jobs[name]] == s.jobs;
    hide FollowsConditions, RunningStep, ListingVerdict;
  }

  /** No batch job of this kind bears the name of the owner. */
  ghost predicate HasNone(batchJobs: map<string, BatchJob>, kind: JobKind, owner: string) {
    forall m | m in batchJobs && batchJobs[m].kind == kind :: batchJobs[m].owner != owner
  }

  lemma NoneIsListed(batchJobs: map<string, BatchJob>, kind: JobKind, owner: string)
    requires HasNone(batchJobs, kind, owner)
    ensures Owned(batchJobs, kind, owner) == {}
  {
  }

  lemma MigrationCounts(md5: string -> string, s: M.Store, name: string, now: int, api: M.Api)
    requires IsDigest(md5) && api.ErrorFree() && name in s.jobs && s.jobs[name].tag == s.jobs[name].lastTag
    requires s.jobs[name].status.state == Running && s.jobs[name].status.notFound < UINT32
    requires HasNone(s.batchJobs, Migration, name)
    ensures var s' := M.Reconcile(md5, s, name, now, api).0;
            && s'.batchJobs == s.batchJobs && name in s'.jobs
            && s'.jobs == s.jobs[name := s.jobs[name].(status := s'.jobs[name].status)]
            && CountsMiss(s.jobs[name].status, s'.jobs[name].status)
  {
    NoneIsListed(s.batchJobs, Migration, name);
    StepCounts(s.jobs[name].status, 0, Unfinished, now);
    hide CountsMiss, RunningStep;
  }

  lemma InitCounts(md5: string -> string, s: I.Store, name: string, now: int, api: I.Api)
    requires IsDigest(md5) && api.ErrorFree() && name in s.jobs
    requires s.jobs[name].status.state == Running && s.jobs[name].status.deadline.Some?
    requires s.jobs[name].status.notFound < UINT32 && HasNone(s.batchJobs, Init, name)
    ensures var s' := I.Reconcile(md5, s, name, now, api).0;
            && s'.batchJobs == s.batchJobs && name in s'.jobs
            && s'.jobs == s.jobs[name := s.jobs[name].(status := s'.jobs[name].status)]
            && CountsMiss(s.jobs[name].status, s'.jobs[name].status)
  {
    NoneIsListed(s.batchJobs, Init, name);
    StepCounts(s.jobs[name].status, 0, Unfinished, now);
    hide CountsMiss, RunningStep;
  }

  // From the first pass to the last

  /** A batch job that has just been created, and nothing else about batch jobs has changed. */
  ghost predicate HasCreated(before: map<string, BatchJob>, n: string, kind: JobKind, owner: string, tag: string,
                             now: int, after: map<string, BatchJob>) {
    && n !in before && after.Keys == before.Keys + {n} && (forall m | m in before :: after[m] == before[m])
    && after[n].kind == kind && after[n].owner == owner && after[n].forTag == tag && after[n].createdAt == now
    && after[n].conditions == []
  }

  /** An error-free pass over a pending migration job without a batch job creates it and records Running. */
  lemma MigrationStarts(md5: string -> string, s: M.Store, name: string, now: int, api: M.Api)
    requires IsDigest(md5) && api.ErrorFree() && name in s.jobs && s.jobs[name].tag == s.jobs[name].lastTag
    requires s.jobs[name].status.state == Pending
    requires HasNone(s.batchJobs, Migration, name) && M.BatchName(md5, name) !in s.batchJobs
    ensures var s' := M.Reconcile(md5, s, name, now, api).0;
            && HasCreated(s.batchJobs, M.BatchName(md5, name), Migration, name, s.jobs[name].tag, now, s'.batchJobs)
            && s'.jobs == s.jobs[name := s.jobs[name].(status := s.jobs[name].status.(state := Running))]
  {
    NoneIsListed(s.batchJobs, Migration, name);
    hide M.BatchName;
  }

  /** An error-free pass over a pending init job without a batch job: it fails the job that has no database
      or no pod spec, and otherwise creates the batch job and records Running. */
  lemma InitStarts(md5: string -> string, s: I.Store, name: string, now: int, api: I.Api)
    requires IsDigest(md5) && api.ErrorFree() && name in s.jobs
    requires s.jobs[name].status.state == Pending && s.jobs[name].status.deadline.Some?
    requires HasNone(s.batchJobs, Init, name) && I.BatchName(md5, name) !in s.batchJobs
    ensures var s', job := I.Reconcile(md5, s, name, now, api).0, s.jobs[name];
            if (job.mysqlEnvironment == "" && job.mongoEnvironment == "") || !api.hasPodSpec then
              s' == s.(jobs := s.jobs[name := job.(status := job.status.(state := Failed))])
            else
              && HasCreated(s.batchJobs, I.BatchName(md5, name), Init, name, "", now, s'.batchJobs)
              && s'.jobs == s.jobs[name := job.(status := job.status.(state := Running))]
  {
    NoneIsListed(s.batchJobs, Init, name);
    hide I.BatchName;
  }

  /** A pending job that already has a batch job only records Running. */
  lemma PendingAdopts(md5: string -> string, s: M.Store, t: I.Store, name: string, n: string, now: int, m: M.Api,
                      i: I.Api)
    requires IsDigest(md5) && m.ErrorFree() && i.ErrorFree()
    ensures name in s.jobs && s.jobs[name].tag == s.jobs[name].lastTag && s.jobs[name].status.state == Pending
            && n in s.batchJobs && s.batchJobs[n].kind == Migration && s.batchJobs[n].owner == name ==>
              M.Reconcile(md5, s, name, now, m).0 ==
              s.(jobs := s.jobs[name := s.jobs[name].(status := s.jobs[name].status.(state := Running))])
    ensures name in t.jobs && t.jobs[name].status.state == Pending && t.jobs[name].status.deadline.Some?
            && n in t.batchJobs && t.batchJobs[n].kind == Init && t.batchJobs[n].owner == name ==>
              I.Reconcile(md5, t, name, now, i).0 ==
              t.(jobs := t.jobs[name := t.jobs[name].(status := t.jobs[name].status.(state := Running))])
  {
    assert n in s.batchJobs && s.batchJobs[n].kind == Migration && s.batchJobs[n].owner == name ==>
        n in Owned(s.batchJobs, Migration, name);
    assert n in t.batchJobs && t.batchJobs[n].kind == Init && t.batchJobs[n].owner == name ==>
        n in Owned(t.batchJobs, Init, name);
    hide M.BatchName, I.BatchName;
  }

  /** The first pass over an init job sets the deadline. */
  lemma InitEnters(md5: string -> string, s: I.Store, name: string, now: int, api: I.Api)
    requires IsDigest(md5) && api.ErrorFree() && name in s.jobs && s.jobs[name].status.state == Unset
    ensures var job := s.jobs[name];
            I.Reconcile(md5, s, name, now, api).0 ==
            s.(jobs := s.jobs[name := job.(status := JobStatus(Pending, job.status.notFound,
                Some(now + job.deadlineSeconds)))])
  {
  }

  /** In every run: once the batch job of a running migration job reports success, the next error-free pass
      over it completes the job. */
  lemma SuccessCompletes(md5: string -> string, events: seq<M.Event>, name: string, conditions: seq<Condition>,
                         now: int, api: M.Api)
    requires IsDigest(md5) && api.ErrorFree() && FirstIs(conditions, JobComplete)
    requires var s := M.Run(md5, events).store;
             && name in s.jobs && s.jobs[name].tag == s.jobs[name].lastTag && s.jobs[name].status.state == Running
             && M.BatchName(md5, name) in s.batchJobs && s.batchJobs[M.BatchName(md5, name)].kind == Migration
             && s.batchJobs[M.BatchName(md5, name)].owner == name
    ensures var s := M.Run(md5,
                events + [M.Report(M.BatchName(md5, name), conditions)] + [M.Pass(name, now, api)]).store;
            name in s.jobs && s.jobs[name].status.state == Complete
  {
    var n := M.BatchName(md5, name);
    var report, pass := M.Report(n, conditions), M.Pass(name, now, api);
    var w := M.Run(md5, events);
    M.RunKeepsInvariant(md5, events);
    M.OwnedAtMostOne(md5, w, name);
    assert M.JobInvariant(w, name);
    var w' := M.Next(md5, w, report);
    assert (events + [report])[..|events|] == events;
    assert (events + [report] + [pass])[..|events| + 1] == events + [report];
    assert M.Run(md5, events + [report]) == w';
    assert IsItsOnly(w'.store.batchJobs, Migration, name, n) by {
      forall m | m in w'.store.batchJobs && w'.store.batchJobs[m].kind == Migration
          && w'.store.batchJobs[m].owner == name ensures m == n {
        assert m in Owned(w.store.batchJobs, Migration, name);
      }
    }
    hide M.Next, M.BatchName, FirstIs, IsItsOnly;
    MigrationFollows(md5, w'.store, name, n, now, api);
    assert M.Run(md5, events + [report] + [pass]) == M.Next(md5, w', pass);
    PassIsReconcile(md5, w', name, now, api);
  }

  lemma PassIsReconcile(md5: string -> string, w: M.World, name: string, now: int, api: M.Api)
    requires IsDigest(md5)
    ensures M.Next(md5, w, M.Pass(name, now, api)).store == M.Reconcile(md5, w.store, name, now, api).0
  {
  }

  /** A new migration job, from any world in which its names are free: three error-free passes, the second
      of which creates the batch job, and a success of that batch job, make it Complete. */
  lemma NewMigrationCompletes(md5: string -> string, s: M.Store, name: string, tag: string, deadlineSeconds: int,
                              conditions: seq<Condition>, nows: seq<int>, apis: seq<M.Api>)
    requires IsDigest(md5) && |nows| == 3 && |apis| == 3 && forall api | api in apis :: api.ErrorFree()
    requires name !in s.jobs && HasNone(s.batchJobs, Migration, name) && M.BatchName(md5, name) !in s.batchJobs
    requires tag != "" && FirstIs(conditions, JobComplete)
    ensures var n, s0 := M.BatchName(md5, name),
                s.(jobs := s.jobs[name := M.DbMigrationJob(tag, deadlineSeconds, M.NEW_STATUS, "")]);
            var s1 := M.Reconcile(md5, s0, name, nows[0], apis[0]).0;
            var s2 := M.Reconcile(md5, s1, name, nows[1], apis[1]).0;
            n in s2.batchJobs &&
            var reported := s2.(batchJobs := s2.batchJobs[n := s2.batchJobs[n].(conditions := conditions)]);
            M.Reconcile(md5, reported, name, nows[2], apis[2]).0.jobs ==
            s.jobs[name := M.DbMigrationJob(tag, deadlineSeconds,
                JobStatus(Complete, 0, Some(nows[0] + deadlineSeconds)), tag)]
  {
    var n, s0 := M.BatchName(md5, name),
        s.(jobs := s.jobs[name := M.DbMigrationJob(tag, deadlineSeconds, M.NEW_STATUS, "")]);
    assert apis[0] in apis && apis[1] in apis && apis[2] in apis;
    NoneIsListed(s.batchJobs, Migration, name);
    var s1 := M.Reconcile(md5, s0, name, nows[0], apis[0]).0;
    assert s1.jobs == s.jobs[name := M.DbMigrationJob(tag, deadlineSeconds,
        JobStatus(Pending, 0, Some(nows[0] + deadlineSeconds)), tag)];
    assert s1.batchJobs == s.batchJobs;
    hide M.Reconcile, M.BatchName, FirstIs;
    MigrationStarts(md5, s1, name, nows[1], apis[1]);
    var s2 := M.Reconcile(md5, s1, name, nows[1], apis[1]).0;
    var reported := s2.(batchJobs := s2.batchJobs[n := s2.batchJobs[n].(conditions := conditions)]);
    assert IsItsOnly(reported.batchJobs, Migration, name, n);
    MigrationFollows(md5, reported, name, n, nows[2], apis[2]);
  }

  /** The same for an init job with a database and a pod spec. */
  lemma NewInitJobCompletes(md5: string -> string, s: I.Store, name: string, job: I.DbInitJob,
                            conditions: seq<Condition>, nows: seq<int>, apis: seq<I.Api>)
    requires IsDigest(md5) && |nows| == 3 && |apis| == 3 && forall api | api in apis :: api.ErrorFree()
    requires HasNone(s.batchJobs, Init, name) && I.BatchName(md5, name) !in s.batchJobs
    requires (job.mysqlEnvironment != "" || job.mongoEnvironment != "") && apis[1].hasPodSpec
    requires job.status == I.NEW_STATUS && FirstIs(conditions, JobComplete)
    ensures var n, s0 := I.BatchName(md5, name), s.(jobs := s.jobs[name := job]);
            var s1 := I.Reconcile(md5, s0, name, nows[0], apis[0]).0;
            var s2 := I.Reconcile(md5, s1, name, nows[1], apis[1]).0;
            n in s2.batchJobs &&
            var reported := s2.(batchJobs := s2.batchJobs[n := s2.batchJobs[n].(conditions := conditions)]);
            I.Reconcile(md5, reported, name, nows[2], apis[2]).0.jobs ==
            s.jobs[name := job.(status := JobStatus(Complete, 0, Some(nows[0] + job.deadlineSeconds)))]
  {
    var n, s0 := I.BatchName(md5, name), s.(jobs := s.jobs[name := job]);
    assert apis[0] in apis && apis[1] in apis && apis[2] in apis;
    hide I.Reconcile, I.BatchName, FirstIs;
    InitEnters(md5, s0, name, nows[0], apis[0]);
    var s1 := I.Reconcile(md5, s0, name, nows[0], apis[0]).0;
    InitStarts(md5, s1, name, nows[1], apis[1]);
    var s2 := I.Reconcile(md5, s1, name, nows[1], apis[1]).0;
    var reported := s2.(batchJobs := s2.batchJobs[n := s2.batchJobs[n].(conditions := conditions)]);
    assert IsItsOnly(reported.batchJobs, Init, name, n);
    InitFollows(md5, reported, name, n, nows[2], apis[2]);
  }
}
