/** Termination of migration jobs (`controllers/job/dbmigrationjob_controller.go:74-176`): with its tag
    left alone, a running job settles, and stays settled. */
module MigrationSettles {
  import opened Jobs
  import opened Names
  import opened MigrationJob

  ghost function RunFrom(md5: string -> string, w: World, events: seq<Event>): World
    requires IsDigest(md5)
    decreases |events|
  {
    if events == [] then w else RunFrom(md5, Next(md5, w, events[0]), events[1..])
  }

  /** The event neither deletes the job nor gives it another tag. */
  predicate LeavesAlone(e: Event, name: string, tag: string) {
    && (e.Discard? ==> e.name != name)
    && (e.Edit? && e.name == name ==> e.tag == tag)
  }

  predicate AllLeaveAlone(events: seq<Event>, name: string, tag: string) {
    forall i | 0 <= i < |events| :: LeavesAlone(events[i], name, tag)
  }

  /** A job whose tag is the recorded one. */
  ghost predicate IsAtTag(w: World, name: string, tag: string) {
    name in w.store.jobs && w.store.jobs[name].tag == tag && w.store.jobs[name].lastTag == tag
  }

  predicate IsGoodPass(e: Event, name: string) { e.Pass? && e.name == name && e.api.ErrorFree() }

  function GoodPasses(events: seq<Event>, name: string): nat {
    if events == [] then 0 else (if IsGoodPass(events[0], name) then 1 else 0) + GoodPasses(events[1..], name)
  }

  predicate IsLate(e: Event, name: string, deadline: int) { e.Pass? && e.name == name ==> e.now > deadline }

  predicate AllLate(events: seq<Event>, name: string, deadline: int) {
    forall i | 0 <= i < |events| :: IsLate(events[i], name, deadline)
  }

  /** What one pass does to a job at its recorded tag. */
  lemma PassAtTag(md5: string -> string, s: Store, name: string, tag: string, now: int, api: Api)
    requires IsDigest(md5) && name in s.jobs && s.jobs[name].tag == tag == s.jobs[name].lastTag
    requires s.jobs[name].status.state == Running || s.jobs[name].status.state.IsFinal()
    ensures var s' := Reconcile(md5, s, name, now, api).0;
            && name in s'.jobs && s'.jobs[name].tag == tag == s'.jobs[name].lastTag
            && (s.jobs[name].status.state.IsFinal() ==> s'.jobs[name].status == s.jobs[name].status)
            && (s.jobs[name].status.state == Running ==>
                  var owned := Owned(s.batchJobs, Migration, name);
                  var status := RunningStep(s.jobs[name].status, |owned|, ListingVerdict(s.batchJobs, owned), now).0;
                  && (s'.jobs[name].status == s.jobs[name].status || s'.jobs[name].status == status)
                  && (api.ErrorFree() && status != s.jobs[name].status ==> s'.jobs[name].status == status))
  {
    hide ListingVerdict, PendingPass, RetagPass;
  }

  lemma OtherPass(md5: string -> string, s: Store, name: string, other: string, now: int, api: Api)
    requires IsDigest(md5) && name in s.jobs && name != other
    ensures var s' := Reconcile(md5, s, other, now, api).0; name in s'.jobs && s'.jobs[name] == s.jobs[name]
  {
    PassHasShape(md5, s, other, now, api);
    hide Reconcile, BatchShape, JobShape;
  }

  lemma StepOfRunning(md5: string -> string, w: World, e: Event, name: string, tag: string)
    requires IsDigest(md5) && Invariant(md5, w) && IsAtTag(w, name, tag) && LeavesAlone(e, name, tag)
    requires w.store.jobs[name].status.state == Running && IsLate(e, name, w.store.jobs[name].status.deadline.value)
    ensures var w' := Next(md5, w, e);
            && IsAtTag(w', name, tag)
            && var before, after := w.store.jobs[name].status, w'.store.jobs[name].status;
               && (after.state == Running || after.state.IsFinal()) && after.deadline == before.deadline
               && Rank(after) <= Rank(before)
               && (IsGoodPass(e, name) ==> Rank(after) < Rank(before))
  {
    assert JobInvariant(w, name);
    if e.Pass? {
      if e.name == name {
        PassAtTag(md5, w.store, name, tag, e.now, e.api);
        var owned := Owned(w.store.batchJobs, Migration, name);
        RunningStepRanks(w.store.jobs[name].status, |owned|, ListingVerdict(w.store.batchJobs, owned), e.now);
      } else {
        OtherPass(md5, w.store, name, e.name, e.now, e.api);
      }
      hide Reconcile, Invariant, RunningStep, Rank, ListingVerdict;
    }
  }

  lemma StepOfSettled(md5: string -> string, w: World, e: Event, name: string, tag: string)
    requires IsDigest(md5) && IsAtTag(w, name, tag) && LeavesAlone(e, name, tag)
        && w.store.jobs[name].status.state.IsFinal()
    ensures IsAtTag(Next(md5, w, e), name, tag) && Next(md5, w, e).store.jobs[name].status == w.store.jobs[name].status
  {
    if e.Pass? {
      if e.name == name {
        PassAtTag(md5, w.store, name, tag, e.now, e.api);
      } else {
        OtherPass(md5, w.store, name, e.name, e.now, e.api);
      }
      hide Reconcile;
    }
  }

  /** A settled job stays as it is until it is deleted or gets another tag. */
  lemma {:induction false} SettledStays(md5: string -> string, w: World, events: seq<Event>, name: string, tag: string)
    requires IsDigest(md5) && IsAtTag(w, name, tag) && AllLeaveAlone(events, name, tag)
        && w.store.jobs[name].status.state.IsFinal()
    ensures IsAtTag(RunFrom(md5, w, events), name, tag)
        && RunFrom(md5, w, events).store.jobs[name].status == w.store.jobs[name].status
    decreases |events|
  {
    if events != [] {
      hide Next;
      assert LeavesAlone(events[0], name, tag);
      StepOfSettled(md5, w, events[0], name, tag);
      assert forall i | 0 <= i < |events[1..]| :: events[1..][i] == events[i + 1];
      SettledStays(md5, Next(md5, w, events[0]), events[1..], name, tag);
    }
  }

  lemma RestFacts(events: seq<Event>, name: string, tag: string, deadline: int)
    requires events != [] && AllLeaveAlone(events, name, tag) && AllLate(events, name, deadline)
    ensures LeavesAlone(events[0], name, tag) && IsLate(events[0], name, deadline)
    ensures AllLeaveAlone(events[1..], name, tag) && AllLate(events[1..], name, deadline)
  {
    assert forall i | 0 <= i < |events[1..]| :: events[1..][i] == events[i + 1];
  }

  /** From every reachable state: past its deadline, and with its tag left alone, a running migration
      job is settled after as many error-free passes as its rank.  That is at most six, at most one when
      more misses than the limit were counted for an earlier tag, and seven when the 32-bit counter is
      about to wrap. */
  lemma {:induction false} RunningJobSettles(md5: string -> string, w: World, events: seq<Event>, name: string,
                                             tag: string)
    requires IsDigest(md5) && Invariant(md5, w) && IsAtTag(w, name, tag) && w.store.jobs[name].status.state == Running
    requires AllLeaveAlone(events, name, tag) && AllLate(events, name, w.store.jobs[name].status.deadline.value)
    requires GoodPasses(events, name) >= Rank(w.store.jobs[name].status)
    ensures IsAtTag(RunFrom(md5, w, events), name, tag)
        && RunFrom(md5, w, events).store.jobs[name].status.state.IsFinal()
    decreases |events|
  {
    assert events != [] && JobInvariant(w, name);
    var e := events[0];
    var w' := Next(md5, w, e);
    RestFacts(events, name, tag, w.store.jobs[name].status.deadline.value);
    StepOfRunning(md5, w, e, name, tag);
    StepKeepsInvariant(md5, w, e);
    hide Next, Invariant, Rank, AllLeaveAlone, AllLate, LeavesAlone, IsLate, IsGoodPass, IsAtTag;
    SameJob(w', name, tag);
    if w'.store.jobs[name].status.state == Running {
      RunningJobSettles(md5, w', events[1..], name, tag);
    } else {
      SettledStays(md5, w', events[1..], name, tag);
    }
  }

  lemma SameJob(w: World, name: string, tag: string)
    requires IsAtTag(w, name, tag)
    ensures name in w.store.jobs
  {
  }

  /** The rank of a running job, by its counter. */
  lemma RankIs(status: JobStatus)
    requires status.state == Running && status.notFound < UINT32
    ensures Rank(status) ==
            if status.notFound == UINT32 - 1 then 7 else if status.notFound > NOT_FOUND_LIMIT then 1
                else 6 - status.notFound
  {
  }

  // Misses are reachable

  ghost predicate HasMissed(w: World, name: string, tag: string, misses: nat) {
    && IsAtTag(w, name, tag)
    && w.store.jobs[name].status.state == Running && w.store.jobs[name].status.notFound == misses
    && Owned(w.store.batchJobs, Migration, name) == {}
  }

  const GOOD := Api(true, true, true, Ok, {}, Ok, Ok)

  lemma RunAppends(md5: string -> string, events: seq<Event>, e: Event)
    requires IsDigest(md5)
    ensures Run(md5, events + [e]) == Next(md5, Run(md5, events), e)
  {
    assert (events + [e])[..|events + [e]| - 1] == events;
  }

  /** A new job gets its batch job, and loses it. */
  lemma LosesBatchJob(md5: string -> string, name: string, tag: string) returns (events: seq<Event>)
    requires IsDigest(md5) && tag != ""
    ensures HasMissed(Run(md5, events), name, tag, 0)
  {
    var submit, pass, expire := Submit(name, tag, 0), Pass(name, 0, GOOD), Expire(BatchName(md5, name));
    var w0: World := World(Store(map[], map[]), {});
    assert Run(md5, []) == w0;
    RunAppends(md5, [], submit);
    RunAppends(md5, [] + [submit], pass);
    RunAppends(md5, [] + [submit] + [pass], pass);
    RunAppends(md5, [] + [submit] + [pass] + [pass], expire);
    events := [] + [submit] + [pass] + [pass] + [expire];
    hide Run, BatchName;
    var w1 := Next(md5, w0, submit);
    var w2 := Next(md5, w1, pass);
    assert IsAtTag(w2, name, tag) && w2.store.jobs[name].status.state == Pending
        && w2.store.jobs[name].status.notFound == 0 && w2.store.batchJobs == map[];
    var w3 := Next(md5, w2, pass);
    assert w3.store == PendingPass(md5, w2.store, name, 0, GOOD).0;
    assert IsAtTag(w3, name, tag) && w3.store.jobs[name].status.state == Running
        && w3.store.jobs[name].status.notFound == 0;
    assert w3.store.batchJobs.Keys == {BatchName(md5, name)};
    assert Next(md5, w3, expire).store.batchJobs == map[];
  }

  /** Every number of misses up to the limit occurs in some run, while the job is still Running. */
  lemma {:induction false} MissesAreReachable(md5: string -> string, name: string, tag: string, misses: nat)
    returns (events: seq<Event>)
    requires IsDigest(md5) && tag != "" && misses <= NOT_FOUND_LIMIT
    ensures HasMissed(Run(md5, events), name, tag, misses)
  {
    if misses == 0 {
      events := LosesBatchJob(md5, name, tag);
    } else {
      var before := MissesAreReachable(md5, name, tag, misses - 1);
      var pass := Pass(name, 0, GOOD);
      events := before + [pass];
      RunAppends(md5, before, pass);
      var w := Run(md5, before);
      hide Run;
      assert Reconcile(md5, w.store, name, 0, GOOD) == RunningPass(w.store, name, 0, GOOD);
    }
  }
}
