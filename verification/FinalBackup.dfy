/** Releasing a deleted site: the finalizer of the site controller
    (`controllers/site/stagingsite_controller.go:254-295`), the final Backup it waits for
    (`handlers/job/backup_handler.go`) and the backup controller that fills it in, run together. */
module FinalBackup {
  import opened Iteration
  import opened Jobs
  import opened Names
  import opened Apis
  import opened BackupJob

  const SITE_FINALIZER := "stagingsite.site.finalizers.operator.kube-stager.io"

  /** A site that carries a deletion timestamp. */
  datatype Site = Site(name: string, finalizers: seq<string>, state: SiteState, backupBeforeDelete: bool)

  /** How the API calls of one pass of the site controller end. */
  datatype SiteApi = SiteApi(get: bool, read: bool, create: Call, save: Call, update: Call)

  function FinalName(md5: string -> string, site: string): string
    requires IsDigest(md5)
  {
    ShortenHumanReadableValue(md5, "final-" + site, 63)
  }

  const NEW_BACKUP := BackupStatus(NO_DETAIL, map[])

  // Specification of a pass of the site controller

  datatype Final = Done | NotDone | Unknown

  function EnsureFinalBackup(md5: string -> string, site: string, backups: map<string, BackupStatus>,
                             api: SiteApi): (map<string, BackupStatus>, Final)
    requires IsDigest(md5)
  {
    var name := FinalName(md5, site);
    if !api.read then (backups, Unknown)
    else if name !in backups then
      (if api.create == Rejected then backups else backups[name := NEW_BACKUP], if api.create == Ok then NotDone
          else Unknown)
    else (backups, if backups[name].own.state.IsFinal() then Done else NotDone)
  }

  function DeletePass(md5: string -> string, site: Site, backups: map<string, BackupStatus>, api: SiteApi): (Site,
      map<string, BackupStatus>, Outcome)
    requires IsDigest(md5)
  {
    if !api.get then (site, backups, Error)
    else if SITE_FINALIZER !in site.finalizers then (site, backups, Quiet)
    else if site.state != StatePending then
      (if api.save == Rejected then site else site.(state := StatePending), backups, if api.save == Ok then Requeue
          else Error)
    else
      var (backups', final) := if site.backupBeforeDelete then EnsureFinalBackup(md5, site.name, backups, api)
          else (backups, Done);
      match final
      case Unknown => (site, backups', Error)
      case NotDone => (site, backups', Quiet)
      case Done =>
        (if api.update == Rejected then site else site.(finalizers := Without(site.finalizers, SITE_FINALIZER)),
         backups', if api.update == Ok then Quiet else Error)
  }

  // The controller

  class StagingSiteReconciler {
    const md5: string -> string
    var site: Site
    var backups: map<string, BackupStatus>

    constructor (md5: string -> string, site: Site, backups: map<string, BackupStatus>)
      ensures this.md5 == md5 && this.site == site && this.backups == backups
    {
      this.md5 := md5;
      this.site := site;
      this.backups := backups;
    }

    method EnsureFinalBackupIsComplete(api: SiteApi) returns (final: Final)
      requires IsDigest(md5)
      modifies this`backups
      ensures (backups, final) == EnsureFinalBackup(md5, site.name, old(backups), api)
    {
      var name := FinalName(md5, site.name);
      if !api.read {
        return Unknown;
      }
      if name !in backups {
        if api.create != Rejected {
          backups := backups[name := NEW_BACKUP];
        }
        if api.create != Ok {
          return Unknown;
        }
      } else {
        match backups[name].own.state
        case Complete => return Done;
        case Failed => return Done;
        case _ =>
      }
      final := NotDone;
    }

    method HandleDelete(api: SiteApi) returns (outcome: Outcome)
      requires IsDigest(md5)
      modifies this
      ensures (site, backups, outcome) == DeletePass(md5, old(site), old(backups), api)
    {
      if !api.get {
        return Error;
      }
      var present := SliceContainsString(site.finalizers, SITE_FINALIZER);
      if !present {
        return Quiet;
      }
      if site.state != StatePending {
        if api.save != Rejected {
          site := site.(state := StatePending);
        }
        return if api.save == Ok then Requeue else Error;
      }
      if site.backupBeforeDelete {
        var final := EnsureFinalBackupIsComplete(api);
        if final != Done {
          return if final == Unknown then Error else Quiet;
        }
      }
      var finalizers := RemoveStringFromSlice(site.finalizers, SITE_FINALIZER);
      if api.update != Rejected {
        site := site.(finalizers := finalizers);
      }
      outcome := if api.update == Ok then Quiet else Error;
    }
  }

  // Runs

  datatype Event =
    | SitePass(siteApi: SiteApi)
    | BackupPass(name: string, order: seq<string>, scanOrder: seq<string>, now: int, api: Api)
    | Toggle(backupBeforeDelete: bool)                               // an edit of the site spec
    | OtherFinalizers(finalizers: seq<string>)                       // by other controllers
    | Submit(name: string)                                           // another Backup of the site
    | Discard(name: string)
    | Report(batchName: string, conditions: seq<Condition>)          // the cluster runs the batch job
    | Expire(batchName: string)
    | Foreign(batchName: string, batchJob: BatchJob)                 // a batch job that is nobody's here

  /** What stays fixed once the deletion has started: the services in the site's status, and which
      of their configs have a pod spec for backups. */
  datatype Frame = Frame(site: string, services: set<string>, configs: Configs) {
    ghost function Wanted(): set<string> { Covered(services, configs) }
  }

  /** The store, and the names of the batch jobs that have ever been seen to succeed. */
  datatype World = World(site: Site, store: Store, succeeded: set<string>)

  ghost function SucceededIn(batchJobs: map<string, BatchJob>): set<string> {
    set n | n in batchJobs && FirstVerdict(batchJobs[n].conditions).Succeeded?
  }

  ghost function Observe(w: World): World {
    w.(succeeded := w.succeeded + SucceededIn(w.store.batchJobs))
  }

  ghost predicate IsPass(frame: Frame, e: Event)
    requires e.BackupPass?
  {
    IsOrderOf(e.order, frame.services) && IsOrderOf(e.scanOrder, frame.Wanted())
  }

  ghost function Step(md5: string -> string, frame: Frame, w: World, e: Event): World
    requires IsDigest(md5)
  {
    var s := w.store;
    match e
    case SitePass(api) =>
      var (site, backups, _) := DeletePass(md5, w.site, s.backups, api);
      w.(site := site, store := s.(backups := backups))
    case BackupPass(name, order, scanOrder, now, api) =>
      if IsPass(frame, e) then w.(store := Reconcile(md5, s, name, frame.configs, order, scanOrder, now, api).0) else w
    case Toggle(b) => w.(site := w.site.(backupBeforeDelete := b))
    case OtherFinalizers(finalizers) =>
      if SITE_FINALIZER in finalizers <==> SITE_FINALIZER in w.site.finalizers then
          w.(site := w.site.(finalizers := finalizers)) else w
    case Submit(name) =>
      if name in s.backups || name == FinalName(md5, frame.site) then w
          else w.(store := s.(backups := s.backups[name := NEW_BACKUP]))
    case Discard(name) => w.(store := s.(backups := s.backups - {name}))
    case Report(batchName, conditions) =>
      if batchName !in s.batchJobs then w
      else w.(store := s.(batchJobs := s.batchJobs[batchName := s.batchJobs[batchName].(conditions := conditions)]))
    case Expire(batchName) => w.(store := s.(batchJobs := s.batchJobs - {batchName}))
    case Foreign(batchName, batchJob) =>
      if batchName in s.batchJobs then w else w.(store := s.(batchJobs := s.batchJobs[batchName := batchJob]))
  }

  ghost function Run(md5: string -> string, frame: Frame, start: World, events: seq<Event>): World
    requires IsDigest(md5)
  {
    if events == [] then Observe(start)
    else Observe(Step(md5, frame, Run(md5, frame, start, events[..|events| - 1]), events[|events| - 1]))
  }

  /** A deleted site.  A final Backup that is already there, as one that an earlier site of this name has
      left, is honest about what had succeeded before. */
  ghost predicate IsStart(md5: string -> string, frame: Frame, start: World)
    requires IsDigest(md5)
  {
    && start.site.name == frame.site
    && var final := FinalName(md5, frame.site);
       final in start.store.backups ==> FinalIsHonest(md5, frame, start.store.backups[final], start.succeeded)
  }

  /** What holds of the final Backup: a service in it is Complete only after its batch job has
      succeeded, and the Backup itself only when every covered service is. */
  ghost predicate FinalIsHonest(md5: string -> string, frame: Frame, backup: BackupStatus, succeeded: set<string>)
    requires IsDigest(md5)
  {
    && IsValid(backup)
    && (forall n | backup.Service(n).state == Complete :: BatchName(md5, n, FinalName(md5, frame.site)) in succeeded)
    && (backup.own.state == Complete ==> forall n | n in frame.Wanted() :: backup.Service(n).state == Complete)
  }

  ghost predicate Invariant(md5: string -> string, frame: Frame, w: World)
    requires IsDigest(md5)
  {
    && w.site.name == frame.site
    && SucceededIn(w.store.batchJobs) <= w.succeeded
    && var final := FinalName(md5, frame.site);
       final in w.store.backups ==> FinalIsHonest(md5, frame, w.store.backups[final], w.succeeded)
  }

  lemma SavedIsHonest(md5: string -> string, frame: Frame, s: Store, e: Event, succeeded: set<string>)
    requires IsDigest(md5) && e.BackupPass? && IsPass(frame, e) && e.name == FinalName(md5, frame.site)
    requires e.name in s.backups && FinalIsHonest(md5, frame, s.backups[e.name], succeeded)
        && SucceededIn(s.batchJobs) <= succeeded
    ensures var r := EnsureJobs(md5, e.name, s.backups[e.name], s.batchJobs, frame.configs, e.order, e.scanOrder, e.now,
        e.api);
            FinalIsHonest(md5, frame, r.job, succeeded)
  {
    var job := s.backups[e.name];
    var r := EnsureJobs(md5, e.name, job, s.batchJobs, frame.configs, e.order, e.scanOrder, e.now, e.api);
    assert ToSet(e.order) == frame.services;
    EnsureJobsIsSafe(md5, e.name, job, s.batchJobs, frame.configs, e.order, e.scanOrder, e.now, e.api);
    PassCompletesAll(md5, e.name, job, s.batchJobs, frame.configs, e.order, e.scanOrder, e.now, e.api);
    hide EnsureJobs, Covered, BatchName;
    forall n | r.job.Service(n).state == Complete
      ensures BatchName(md5, n, e.name) in succeeded
    {
      if job.Service(n).state != Complete {
        assert BatchName(md5, n, e.name) in SucceededIn(s.batchJobs);
      }
    }
  }

  lemma BackupPassKeepsInvariant(md5: string -> string, frame: Frame, w: World, e: Event)
    requires IsDigest(md5) && Invariant(md5, frame, w) && e.BackupPass? && IsPass(frame, e)
    ensures Invariant(md5, frame, Observe(Step(md5, frame, w, e)))
  {
    var s, s' := w.store, Step(md5, frame, w, e).store;
    var final := FinalName(md5, frame.site);
    hide EnsureJobs, FinalName, IsPass, SucceededIn;
    if e.api.get && e.name == final && final in s.backups {
      if s.backups[final].own.state == Unset {
        var pending := s.backups[final].(own := s.backups[final].own.(state := Pending));
        assert s'.backups[final] == pending || s'.backups[final] == s.backups[final];
        assert forall n :: pending.Service(n) == s.backups[final].Service(n);
      } else {
        SavedIsHonest(md5, frame, s, e, w.succeeded);
        var r := EnsureJobs(md5, final, s.backups[final], s.batchJobs, frame.configs, e.order, e.scanOrder, e.now,
            e.api);
        assert s'.backups[final] == r.job || s'.backups[final] == s.backups[final];
      }
    } else {
      assert final in s'.backups ==> final in s.backups && s'.backups[final] == s.backups[final];
    }
  }

  lemma StepKeepsInvariant(md5: string -> string, frame: Frame, w: World, e: Event)
    requires IsDigest(md5) && Invariant(md5, frame, w)
    ensures Invariant(md5, frame, Observe(Step(md5, frame, w, e)))
  {
    if e.BackupPass? && IsPass(frame, e) {
      BackupPassKeepsInvariant(md5, frame, w, e);
    } else {
      hide FinalName, Reconcile, Without, IsPass, SucceededIn;
    }
  }

  lemma {:induction false} RunKeepsInvariant(md5: string -> string, frame: Frame, start: World, events: seq<Event>)
    requires IsDigest(md5) && IsStart(md5, frame, start)
    ensures Invariant(md5, frame, Run(md5, frame, start, events))
  {
    hide Invariant;
    if events == [] {
      StartKeepsInvariant(md5, frame, start);
    } else {
      RunKeepsInvariant(md5, frame, start, events[..|events| - 1]);
      StepKeepsInvariant(md5, frame, Run(md5, frame, start, events[..|events| - 1]), events[|events| - 1]);
    }
  }

  lemma StartKeepsInvariant(md5: string -> string, frame: Frame, start: World)
    requires IsDigest(md5) && IsStart(md5, frame, start)
    ensures Invariant(md5, frame, Observe(start))
  {
  }

  ghost function At(md5: string -> string, frame: Frame, start: World, events: seq<Event>, k: nat): World
    requires IsDigest(md5) && k <= |events|
  {
    Run(md5, frame, start, events[..k])
  }

  /** After `k` events the batch job exists and has succeeded. */
  ghost predicate HasSucceededAt(md5: string -> string, frame: Frame, start: World, events: seq<Event>, k: nat,
                                 batchName: string)
    requires IsDigest(md5)
  {
    k <= |events| && batchName in SucceededIn(At(md5, frame, start, events, k).store.batchJobs)
  }

  lemma {:induction false} HistoryIsReal(md5: string -> string, frame: Frame, start: World, events: seq<Event>,
                                         batchName: string)
    requires IsDigest(md5) && batchName in Run(md5, frame, start, events).succeeded - start.succeeded
    ensures exists k: nat :: HasSucceededAt(md5, frame, start, events, k, batchName)
  {
    hide Step, SucceededIn;
    assert events[..|events|] == events;
    if batchName in SucceededIn(Run(md5, frame, start, events).store.batchJobs) {
      assert HasSucceededAt(md5, frame, start, events, |events|, batchName);
    } else {
      assert events != [];
      var front, last := events[..|events| - 1], events[|events| - 1];
      StepKeepsHistory(md5, frame, Run(md5, frame, start, front), last);
      HistoryIsReal(md5, frame, start, front, batchName);
      var k: nat :| HasSucceededAt(md5, frame, start, front, k, batchName);
      assert front[..k] == events[..k];
      assert HasSucceededAt(md5, frame, start, events, k, batchName);
    }
  }

  lemma StepKeepsHistory(md5: string -> string, frame: Frame, w: World, e: Event)
    requires IsDigest(md5)
    ensures Step(md5, frame, w, e).succeeded == w.succeeded
  {
    hide DeletePass, Reconcile, IsPass;
  }

  /** Event `i` of the run is a pass that takes the finalizer off a site that asks for a backup. */
  ghost predicate ReleasesAt(md5: string -> string, frame: Frame, start: World, events: seq<Event>, i: nat)
    requires IsDigest(md5)
  {
    && i < |events| && events[i].SitePass?
    && var before, after := At(md5, frame, start, events, i).site, At(md5, frame, start, events, i + 1).site;
       before.backupBeforeDelete && SITE_FINALIZER in before.finalizers && SITE_FINALIZER !in after.finalizers
  }

  /** In every run of the two controllers, with a failure at any call and whatever happens to batch
      jobs, Backups and the site spec: a site that asks for a backup is released only when its final
      Backup has failed, or when every covered service's batch job had succeeded by then, in this run or
      before it. */
  lemma ReleaseIsSafe(md5: string -> string, frame: Frame, start: World, events: seq<Event>, i: nat)
    requires IsDigest(md5) && IsStart(md5, frame, start) && ReleasesAt(md5, frame, start, events, i)
    ensures var backups, final := At(md5, frame, start, events, i).store.backups, FinalName(md5, frame.site);
            && final in backups
            && (backups[final].own.state == Failed ||
                forall n | n in frame.Wanted() ::
                  || BatchName(md5, n, final) in start.succeeded
                  || exists k: nat :: k <= i && HasSucceededAt(md5, frame, start, events, k, BatchName(md5, n, final)))
  {
    var front, final := events[..i], FinalName(md5, frame.site);
    var w := Run(md5, frame, start, front);
    RunKeepsInvariant(md5, frame, start, front);
    assert events[..i + 1][..i] == front;
    ReleaseNeedsFinalState(md5, frame, w, events[i]);
    hide Run, DeletePass, FinalName, BatchName;
    if w.store.backups[final].own.state != Failed {
      forall n | n in frame.Wanted() && BatchName(md5, n, final) !in start.succeeded
        ensures exists k: nat :: k <= i && HasSucceededAt(md5, frame, start, events, k, BatchName(md5, n, final))
      {
        var batchName := BatchName(md5, n, final);
        HistoryIsReal(md5, frame, start, front, batchName);
        var k: nat :| HasSucceededAt(md5, frame, start, front, k, batchName);
        assert front[..k] == events[..k];
        assert HasSucceededAt(md5, frame, start, events, k, batchName);
      }
    }
  }

  lemma ReleaseNeedsFinalState(md5: string -> string, frame: Frame, w: World, e: Event)
    requires IsDigest(md5) && e.SitePass? && w.site.name == frame.site && w.site.backupBeforeDelete
    requires SITE_FINALIZER in w.site.finalizers && SITE_FINALIZER !in Step(md5, frame, w, e).site.finalizers
    ensures FinalName(md5, frame.site) in w.store.backups
        && w.store.backups[FinalName(md5, frame.site)].own.state.IsFinal()
  {
  }

  /** Exactly when a pass releases the site, and that the other finalizers keep their order. */
  lemma ReleaseExactly(md5: string -> string, site: Site, backups: map<string, BackupStatus>, api: SiteApi)
    requires IsDigest(md5) && SITE_FINALIZER in site.finalizers
    ensures var after, final := DeletePass(md5, site, backups, api).0, FinalName(md5, site.name);
            && (SITE_FINALIZER !in after.finalizers <==>
                  && api.get && site.state == StatePending && api.update != Rejected
                  && (site.backupBeforeDelete ==> api.read && final in backups && backups[final].own.state.IsFinal()))
            && (forall a, b | site.finalizers == a + [SITE_FINALIZER] + b && SITE_FINALIZER !in a + b ::
                  after.finalizers == site.finalizers || after.finalizers == a + b)
  {
    forall a, b | site.finalizers == a + [SITE_FINALIZER] + b && SITE_FINALIZER !in a + b
      ensures Without(site.finalizers, SITE_FINALIZER) == a + b
    {
      WithoutKeepsOrder(a + [SITE_FINALIZER], b, SITE_FINALIZER);
      WithoutKeepsOrder(a, [SITE_FINALIZER], SITE_FINALIZER);
      assert forall x | x in a :: x in a + b;
      assert forall x | x in b :: x in a + b;
      assert Without([SITE_FINALIZER], SITE_FINALIZER) == [];
    }
  }

  // A settled site is released

  /** Nothing keeps the site waiting: it asks for no backup, or its final Backup is Complete or Failed. */
  ghost predicate IsSettled(md5: string -> string, w: World)
    requires IsDigest(md5)
  {
    w.site.backupBeforeDelete ==>
      FinalName(md5, w.site.name) in w.store.backups
      && w.store.backups[FinalName(md5, w.site.name)].own.state.IsFinal()
  }

  predicate IsGoodPass(e: Event) {
    e.SitePass? && e.siteApi.get && e.siteApi.read && e.siteApi.save == Ok && e.siteApi.update == Ok
  }

  function GoodPasses(events: seq<Event>): nat {
    if events == [] then 0
    else GoodPasses(events[..|events| - 1]) + (if IsGoodPass(events[|events| - 1]) then 1 else 0)
  }

  /** How many error-free passes a settled site still needs. */
  function Rank(site: Site): nat {
    if SITE_FINALIZER !in site.finalizers then 0 else if site.state == StatePending then 1 else 2
  }

  lemma StepLowersRank(md5: string -> string, frame: Frame, w: World, e: Event)
    requires IsDigest(md5)
    ensures var w' := Step(md5, frame, w, e);
            && Rank(w'.site) <= Rank(w.site) && w'.site.name == w.site.name
            && (IsGoodPass(e) && IsSettled(md5, w) && Rank(w.site) > 0 ==> Rank(w'.site) < Rank(w.site))
  {
    hide FinalName, Reconcile, IsPass;
    if e.SitePass? && SITE_FINALIZER in w.site.finalizers {
      ReleaseExactly(md5, w.site, w.store.backups, e.siteApi);
    }
  }

  /** From any state whatever: once settled, and for as long as it stays so, the site is released after as
      many error-free passes as its rank, at most two, whatever else happens in between. */
  lemma {:induction false} SettledIsReleased(md5: string -> string, frame: Frame, start: World, events: seq<Event>)
    requires IsDigest(md5)
    requires forall k: nat | k <= |events| :: IsSettled(md5, At(md5, frame, start, events, k))
    ensures var rank := Rank(Run(md5, frame, start, events).site);
            rank <= if Rank(start.site) <= GoodPasses(events) then 0 else Rank(start.site) - GoodPasses(events)
    ensures GoodPasses(events) >= 2 ==> SITE_FINALIZER !in Run(md5, frame, start, events).site.finalizers
  {
    if events != [] {
      var front, e := events[..|events| - 1], events[|events| - 1];
      hide IsSettled, Step, IsGoodPass;
      forall k: nat | k <= |front| ensures IsSettled(md5, At(md5, frame, start, front, k)) {
        assert front[..k] == events[..k];
        assert At(md5, frame, start, events, k) == At(md5, frame, start, front, k);
      }
      SettledIsReleased(md5, frame, start, front);
      assert At(md5, frame, start, events, |front|) == Run(md5, frame, start, front);
      StepLowersRank(md5, frame, Run(md5, frame, start, front), e);
    }
  }

  lemma {:induction false} ScanOfComplete(md5: string -> string, backup: string, s: Scan, order: seq<string>, now: int,
                                          api: Api)
    requires IsDigest(md5) && forall n | n in order :: s.job.Service(n).state == Complete
    ensures ScanServices(md5, backup, s, order, now, api).job == s.job
  {
    if order != [] {
      var front, name := order[..|order| - 1], order[|order| - 1];
      ScanOfComplete(md5, backup, s, front, now, api);
      assert name in order;
    }
  }

  /** Failures included, a Backup whose covered services are all Complete stays Complete. */
  lemma PassKeepsComplete(md5: string -> string, backup: string, job: BackupStatus, batchJobs: map<string, BatchJob>,
                          configs: Configs, order: seq<string>, scanOrder: seq<string>, now: int, api: Api)
    requires IsDigest(md5) && job.own.state == Complete && forall n | n in scanOrder :: job.Service(n).state == Complete
    ensures EnsureJobs(md5, backup, job, batchJobs, configs, order, scanOrder, now, api).job.own.state == Complete
  {
    var marked := MarkPending(job, Loaded(order, configs, api));
    MarkedFacts(job, Loaded(order, configs, api));
    ScanOfComplete(md5, backup, Scan(marked, batchJobs, marked != job, true, None, false), scanOrder, now, api);
    hide MarkPending, Loaded, LoadFails, ScanServices;
  }

  ghost predicate IsBackedUp(md5: string -> string, w: World)
    requires IsDigest(md5)
  {
    FinalName(md5, w.site.name) in w.store.backups
    && w.store.backups[FinalName(md5, w.site.name)].own.state == Complete
  }

  lemma StepKeepsBackedUp(md5: string -> string, frame: Frame, w: World, e: Event)
    requires IsDigest(md5) && Invariant(md5, frame, w) && IsBackedUp(md5, w)
    requires e.Discard? ==> e.name != FinalName(md5, frame.site)
    ensures IsBackedUp(md5, Step(md5, frame, w, e))
  {
    hide FinalName, Without, IsPass, SucceededIn, BatchName;
    var final, s := FinalName(md5, frame.site), w.store;
    if e.BackupPass? && IsPass(frame, e) {
      hide EnsureJobs;
      if e.name == final {
        CoveredAreComplete(md5, frame, w, e);
        PassKeepsComplete(md5, final, s.backups[final], s.batchJobs, frame.configs, e.order, e.scanOrder, e.now, e.api);
      }
    } else {
      hide Reconcile;
    }
  }

  lemma CoveredAreComplete(md5: string -> string, frame: Frame, w: World, e: Event)
    requires IsDigest(md5) && Invariant(md5, frame, w) && IsBackedUp(md5, w) && e.BackupPass? && IsPass(frame, e)
    ensures var job := w.store.backups[FinalName(md5, frame.site)];
            forall n | n in e.scanOrder :: job.Service(n).state == Complete
  {
    hide FinalName, BatchName, Covered;
    assert ToSet(e.scanOrder) == frame.Wanted();
    forall n | n in e.scanOrder ensures n in frame.Wanted() {
      assert n in ToSet(e.scanOrder);
    }
  }

  predicate KeepsFinal(md5: string -> string, frame: Frame, events: seq<Event>)
    requires IsDigest(md5)
  {
    forall i | 0 <= i < |events| && events[i].Discard? :: events[i].name != FinalName(md5, frame.site)
  }

  lemma {:induction false} RunKeepsBackedUp(md5: string -> string, frame: Frame, start: World, events: seq<Event>)
    requires IsDigest(md5) && IsStart(md5, frame, start) && IsBackedUp(md5, start) && KeepsFinal(md5, frame, events)
    ensures IsBackedUp(md5, Run(md5, frame, start, events))
  {
    if events != [] {
      var front := events[..|events| - 1];
      assert forall i | 0 <= i < |front| :: front[i] == events[i];
      hide IsStart, Step, Invariant, FinalName;
      RunKeepsBackedUp(md5, frame, start, front);
      RunKeepsInvariant(md5, frame, start, front);
      StepKeepsBackedUp(md5, frame, Run(md5, frame, start, front), events[|events| - 1]);
    }
  }

  /** A site whose final Backup is Complete is released after two error-free passes, with failures, batch
      jobs, edits and passes over Backups in between, unless somebody deletes that Backup. */
  lemma BackedUpIsReleased(md5: string -> string, frame: Frame, start: World, events: seq<Event>)
    requires IsDigest(md5) && IsStart(md5, frame, start) && IsBackedUp(md5, start) && KeepsFinal(md5, frame, events)
    requires GoodPasses(events) >= 2
    ensures SITE_FINALIZER !in Run(md5, frame, start, events).site.finalizers
  {
    hide Run, IsStart, FinalName, GoodPasses;
    forall k: nat | k <= |events| ensures IsSettled(md5, At(md5, frame, start, events, k)) {
      assert forall i | 0 <= i < k :: events[..k][i] == events[i];
      RunKeepsBackedUp(md5, frame, start, events[..k]);
    }
    SettledIsReleased(md5, frame, start, events);
  }
}
