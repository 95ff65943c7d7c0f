/** The status pass of the site controller (`ensureStatusIsUpToDate` in
    `controllers/site/stagingsite_controller.go`): deadlines, services, the next and the last backup,
    adoption of Backups and retention. */
module SiteStatus {
  import opened Iteration
  import opened Jobs
  import opened Names
  import opened Apis
  import opened BackupSchedule

  /** The annotation that holds the time of the last change of the spec. */
  datatype Annotation = Missing | Garbled | ChangedAt(at: int)

  datatype Status = Status(
    state: SiteState,
    hasHealth: bool,
    disableAt: Option<int>,
    deleteAt: Option<int>,
    enabled: bool,
    lastApplied: Option<int>,
    services: map<string, ServiceStatus>,
    next: Option<int>,
    last: Option<int>)

  /** What the site controller reads of a Backup; `controlled` when some object owns it. */
  datatype Backup = Backup(state: JobState, startedAt: Option<int>, finishedAt: Option<int>, controlled: bool)

  datatype Site = Site(name: string, spec: SiteSpec, annotation: Annotation, status: Status,
                       backups: map<string, Backup>)

  /** The fixed surroundings: digests, and the short names of the service configs. */
  datatype Frame = Frame(md5: string -> string, fnv: string -> nat, shortNames: map<string, string>)

  /** How the API calls of one pass end, per object where the pass loops. */
  datatype Api = Api(update: Call, config: string -> bool, list: bool, claim: string -> Call, delete: string -> Call)

  // Specification, part by part

  function Deadline(after: TimeInterval, changedAt: int): Option<int> {
    if after.never then None else Some(changedAt + after.ToDuration())
  }

  predicate ShouldBeEnabled(spec: SiteSpec, disableAt: Option<int>, now: int) {
    spec.enabled && (disableAt == None || disableAt.value > now)
  }

  function Deadlines(spec: SiteSpec, changedAt: int, status: Status, now: int): Status {
    var disableAt := Deadline(spec.disableAfter, changedAt);
    var enabled := ShouldBeEnabled(spec, disableAt, now);
    status.(
      disableAt := disableAt,
      deleteAt := Deadline(spec.deleteAfter, changedAt),
      enabled := enabled,
      state := if status.enabled != enabled then StatePending else status.state,
      lastApplied := if status.lastApplied == None || status.lastApplied.value < changedAt then Some(changedAt)
          else status.lastApplied)
  }

  predicate ConfigsRead(frame: Frame, spec: SiteSpec, api: Api) {
    forall n | n in spec.services :: api.config(n) && n in frame.shortNames
  }

  function Entry(frame: Frame, spec: SiteSpec, service: string, redisNumber: string): ServiceStatus
    requires IsDigest(frame.md5)
  {
    var shortName := Lookup(frame.shortNames, service, "");
    ServiceStatus(MakeUsername(frame.md5, spec.username, shortName),
        MakeDatabaseName(frame.md5, spec.dbName, shortName), redisNumber)
  }

  /** One entry per service of the spec; an entry that was there keeps its Redis number. */
  function Services(frame: Frame, spec: SiteSpec, services: map<string, ServiceStatus>): map<string, ServiceStatus>
    requires IsDigest(frame.md5)
  {
    map n | n in spec.services :: Entry(frame, spec, n, Lookup(services, n, NO_STATUS).redisNumber)
  }

  function Latest(last: Option<int>, backup: Backup): Option<int> {
    if backup.state == Complete && backup.finishedAt.Some? && (last == None || last.value < backup.finishedAt.value)
    then backup.finishedAt else last
  }

  /** The loop over the Backups of the site. */
  datatype Scan = Scan(backups: map<string, Backup>, last: Option<int>, finished: seq<string>, claimed: bool,
                       failed: bool)

  function ScanStep(s: Scan, name: string, api: Api): Scan {
    if s.failed || name !in s.backups then s
    else
      var backup := s.backups[name];
      var seen := s.(last := Latest(s.last, backup), finished := if backup.state.IsFinal() then s.finished + [name]
          else s.finished);
      if backup.controlled then seen
      else seen.(backups := if api.claim(name) == Rejected then s.backups
          else s.backups[name := backup.(controlled := true)],
                 claimed := s.claimed || api.claim(name) == Ok,
                 failed := api.claim(name) != Ok)
  }

  function ScanBackups(s: Scan, listing: seq<string>, api: Api): Scan {
    if listing == [] then s
    else ScanStep(ScanBackups(s, listing[..|listing| - 1], api), listing[|listing| - 1], api)
  }

  const KEPT_BACKUPS := 3

  /** The comparison that Go sorts by: no start time comes first. */
  predicate StartsBefore(a: Option<int>, b: Option<int>) {
    if a == None then b != None else b != None && a.value < b.value
  }

  ghost predicate IsSorted(order: seq<string>, backups: map<string, Backup>)
    requires forall n | n in order :: n in backups
  {
    forall i, j | 0 <= i < j < |order| :: !StartsBefore(backups[order[j]].startedAt, backups[order[i]].startedAt)
  }

  ghost function Finished(backups: map<string, Backup>): set<string> {
    set n | n in backups && backups[n].state.IsFinal()
  }

  /** An order that the unstable sort may return. */
  ghost predicate IsSortedFinished(sorted: seq<string>, backups: map<string, Backup>) {
    IsOrderOf(sorted, Finished(backups)) && IsSorted(sorted, backups)
  }

  /** What is left after deletion of the first `count` of `sorted`, up to the first failing call. */
  function Delete(backups: map<string, Backup>, sorted: seq<string>, count: nat, api: Api): (map<string, Backup>, bool)
    requires count <= |sorted|
  {
    if count == 0 then (backups, false)
    else
      var (before, failed) := Delete(backups, sorted, count - 1, api);
      if failed then (before, true)
      else
        var name := sorted[count - 1];
        (if api.delete(name) == Rejected then before else before - {name}, api.delete(name) != Ok)
  }

  function Surplus(finished: seq<string>): nat {
    if |finished| > KEPT_BACKUPS then |finished| - KEPT_BACKUPS else 0
  }

  /** What becomes of the Backups and of the time of the last one. */
  datatype Handled = Handled(backups: map<string, Backup>, last: Option<int>, changed: bool, failed: bool)

  /** `listing` is the order in which the Backups are listed, and `sorted` what the sort returns.
      Adopting a Backup ends the pass before anything is deleted. */
  function HandleBackups(backups: map<string, Backup>, last: Option<int>, listing: seq<string>, sorted: seq<string>,
                         api: Api): Handled {
    if !api.list then Handled(backups, last, false, true)
    else
      var s := ScanBackups(Scan(backups, last, [], false, false), listing, api);
      if s.failed then Handled(s.backups, last, s.last != last, true)
      else if s.claimed || Surplus(s.finished) > |sorted| then
          Handled(s.backups, s.last, s.claimed || s.last != last, false)
      else
        var (kept, failed) := Delete(s.backups, sorted, Surplus(s.finished), api);
        Handled(kept, s.last, s.last != last, failed)
  }

  datatype Result = Result(site: Site, changed: bool, failed: bool)

  function StatusPass(frame: Frame, site: Site, listing: seq<string>, sorted: seq<string>, now: int, api: Api): Result
    requires IsDigest(frame.md5)
  {
    var entered := if site.status.state == NoState then site.(status := site.status.(state := StatePending)) else site;
    if !site.annotation.ChangedAt? then
      Result(if api.update == Rejected then entered else entered.(annotation := ChangedAt(now)), api.update == Ok,
          api.update != Ok)
    else
      var dated := Deadlines(site.spec, site.annotation.at, entered.status, now);
      if !ConfigsRead(frame, site.spec, api) then Result(entered.(status := dated), false, true)
      else AfterConfigs(frame, entered.(status := dated), dated != entered.status, listing, sorted, now, api)
  }

  function AfterConfigs(frame: Frame, site: Site, dated: bool, listing: seq<string>, sorted: seq<string>, now: int,
                        api: Api): Result
    requires IsDigest(frame.md5)
  {
    var status := site.status;
    var next := Reschedule(frame.fnv, site.name, site.spec.backupHour, status.next, now);
    var planned := status.(services := Services(frame, site.spec, status.services), hasHealth := true,
        next := next.time);
    var changed := dated || status.services.Keys != site.spec.services.Keys;
    if next.failed then Result(site.(status := planned), changed, true)
    else
      var b := HandleBackups(site.backups, status.last, listing, sorted, api);
      Result(site.(status := planned.(last := b.last), backups := b.backups),
             changed || Reschedules(site.spec.backupHour, status.next) || b.changed, b.failed)
  }

  // The controller

  class StagingSite {
    const name: string
    const spec: SiteSpec
    var annotation: Annotation
    var status: Status
    var backups: map<string, Backup>

    constructor (site: Site)
      ensures Value() == site
    {
      name := site.name;
      spec := site.spec;
      annotation := site.annotation;
      status := site.status;
      backups := site.backups;
    }

    function Value(): Site
      reads this
    {
      Site(name, spec, annotation, status, backups)
    }

    method UpdateDisableAt(changedAt: int) returns (changed: bool)
      modifies this`status
      ensures status == old(status).(disableAt := Deadline(spec.disableAfter, changedAt))
          && changed == (status != old(status))
    {
      changed := false;
      if spec.disableAfter.never {
        if status.disableAt != None {
          status := status.(disableAt := None);
          changed := true;
        }
      } else {
        var disableAt := Some(changedAt + spec.disableAfter.ToDuration());
        if status.disableAt == None || status.disableAt != disableAt {
          status := status.(disableAt := disableAt);
          changed := true;
        }
      }
    }

    method UpdateDeleteAt(changedAt: int) returns (changed: bool)
      modifies this`status
      ensures status == old(status).(deleteAt := Deadline(spec.deleteAfter, changedAt))
          && changed == (status != old(status))
    {
      changed := false;
      if spec.deleteAfter.never {
        if status.deleteAt != None {
          status := status.(deleteAt := None);
          changed := true;
        }
      } else {
        var deleteAt := Some(changedAt + spec.deleteAfter.ToDuration());
        if status.deleteAt == None || status.deleteAt != deleteAt {
          status := status.(deleteAt := deleteAt);
          changed := true;
        }
      }
    }

    method UpdateDeadlines(changedAt: int, now: int) returns (changed: bool)
      modifies this`status
      ensures status == Deadlines(spec, changedAt, old(status), now) && changed == (status != old(status))
    {
      hide Deadline;
      var disableChanged := UpdateDisableAt(changedAt);
      var deleteChanged := UpdateDeleteAt(changedAt);
      changed := disableChanged || deleteChanged;
      ghost var dated := status;
      assert changed == (dated != old(status));
      var expected := spec.enabled && (status.disableAt == None || status.disableAt.value > now);
      if status.enabled != expected {
        status := status.(enabled := expected, state := StatePending);
        changed := true;
      }
      if status.lastApplied == None || status.lastApplied.value < changedAt {
        status := status.(lastApplied := Some(changedAt));
        changed := true;
      }
    }

    /** The entries that are there; `left` are the services of the spec without one. */
    static method RetainServices(frame: Frame, spec: SiteSpec, was: map<string, ServiceStatus>)
      returns (services: map<string, ServiceStatus>, left: set<string>, changed: bool)
      requires IsDigest(frame.md5)
      ensures forall n :: n in services <==> n in was && n in spec.services
      ensures forall n | n in services :: services[n] == Entry(frame, spec, n, was[n].redisNumber)
      ensures forall n :: n in left <==> n in spec.services && n !in was
      ensures changed <==> exists n :: n in was && n !in spec.services
    {
      hide Entry;
      services, left, changed := was, spec.services.Keys, false;
      var todo := was.Keys;
      while todo != {}
        invariant todo <= was.Keys
        invariant forall n :: n in left <==> n in spec.services && (n in todo || n !in was)
        invariant forall n :: n in services <==> n in todo || (n in was && n in spec.services)
        invariant forall n | n in todo :: services[n] == was[n]
        invariant forall n | n in services && n !in todo :: services[n] == Entry(frame, spec, n, was[n].redisNumber)
        invariant changed ==> exists n :: n in was && n !in spec.services
        invariant !changed ==> forall n | n in was && n !in todo :: n in spec.services
        decreases |todo|
      {
        var n :| n in todo;
        if n in left {
          var expected := Entry(frame, spec, n, was[n].redisNumber);
          EntryRedis(frame, spec, n, was[n].redisNumber);
          if services[n].username != expected.username || services[n].dbName != expected.dbName {
            services := services[n := services[n].(username := expected.username, dbName := expected.dbName)];
          }
          left := left - {n};
        } else {
          changed := true;
          services := services - {n};
        }
        todo := todo - {n};
      }
    }

    static method AddServices(frame: Frame, spec: SiteSpec, was: map<string, ServiceStatus>, left: set<string>)
      returns (services: map<string, ServiceStatus>)
      requires IsDigest(frame.md5)
      ensures forall n :: n in services <==> n in was || n in left
      ensures forall n | n in services :: services[n] == if n in left then Entry(frame, spec, n, "0") else was[n]
    {
      hide Entry;
      services := was;
      var todo := left;
      while todo != {}
        invariant todo <= left
        invariant forall n :: n in services <==> n in was || (n in left && n !in todo)
        invariant forall n | n in services :: services[n] == if n in left && n !in todo then Entry(frame, spec, n, "0")
            else was[n]
        decreases |todo|
      {
        var n :| n in todo;
        services := services[n := Entry(frame, spec, n, "0")];
        todo := todo - {n};
      }
    }

    method UpdateServices(frame: Frame) returns (changed: bool)
      requires IsDigest(frame.md5)
      modifies this`status
      ensures status == old(status).(services := Services(frame, spec, old(status).services))
      ensures changed == (old(status).services.Keys != spec.services.Keys)
    {
      hide Entry;
      var retained, left, dropped := RetainServices(frame, spec, status.services);
      changed := dropped || left != {};
      var services := AddServices(frame, spec, retained, left);
      assert services == Services(frame, spec, status.services);
      status := status.(services := services);
    }

    method ScanAll(listing: seq<string>, api: Api) returns (s: Scan)
      requires IsOrderOf(listing, backups.Keys)
      modifies this`backups
      ensures s == ScanBackups(Scan(old(backups), status.last, [], false, false), listing, api) && backups == s.backups
    {
      hide ScanBackups;
      ghost var start := Scan(backups, status.last, [], false, false);
      ScanNothing(start, api);
      var last, finished, claimed := status.last, [], false;
      for i := 0 to |listing|
        invariant Scan(backups, last, finished, claimed, false) == ScanBackups(start, listing[..i], api)
        invariant backups.Keys == old(backups).Keys
      {
        var name := listing[i];
        assert name in backups;
        ScanOneMore(start, listing, i, api);
        var backup := backups[name];
        if backup.state == Complete && backup.finishedAt != None {
          if last == None || last.value < backup.finishedAt.value {
            last := backup.finishedAt;
          }
        }
        if backup.state.IsFinal() {
          finished := finished + [name];
        }
        if !backup.controlled {
          if api.claim(name) != Rejected {
            backups := backups[name := backup.(controlled := true)];
          }
          if api.claim(name) != Ok {
            s := Scan(backups, last, finished, claimed, true);
            ScanStopsAtFailure(start, listing, i + 1, api);
            return;
          }
          claimed := true;
        }
      }
      assert listing[..|listing|] == listing;
      s := Scan(backups, last, finished, claimed, false);
    }

    method CleanUp(finished: seq<string>, sorted: seq<string>, api: Api) returns (failed: bool)
      requires |finished| == |sorted|
      modifies this`backups
      ensures (backups, failed) == Delete(old(backups), sorted, Surplus(finished), api)
    {
      if |finished| > KEPT_BACKUPS {
        for i := 0 to |sorted|
          invariant i <= |sorted| - KEPT_BACKUPS
          invariant (backups, false) == Delete(old(backups), sorted, i, api)
        {
          if i >= |sorted| - KEPT_BACKUPS {
            break;
          }
          if api.delete(sorted[i]) != Rejected {
            backups := backups - {sorted[i]};
          }
          if api.delete(sorted[i]) != Ok {
            assert (backups, true) == Delete(old(backups), sorted, i + 1, api);
            DeleteStopsAtFailure(old(backups), sorted, i + 1, |sorted| - KEPT_BACKUPS, api);
            return true;
          }
        }
      }
      failed := false;
    }

    method EnsureStatusIsUpToDate(frame: Frame, listing: seq<string>, sorted: seq<string>, now: int, api: Api)
      returns (changed: bool, failed: bool)
      requires IsDigest(frame.md5) && IsOrderOf(listing, backups.Keys) && IsSortedFinished(sorted, backups)
      modifies this
      ensures Result(Value(), changed, failed) == StatusPass(frame, old(Value()), listing, sorted, now, api)
    {
      hide Deadlines, AfterConfigs, IsSortedFinished, IsOrderOf;
      if status.state == NoState {
        status := status.(state := StatePending);
      }
      if !annotation.ChangedAt? {
        if api.update != Rejected {
          annotation := ChangedAt(now);
        }
        return api.update == Ok, api.update != Ok;
      }
      changed := UpdateDeadlines(annotation.at, now);
      var todo := spec.services.Keys;
      while todo != {}
        invariant todo <= spec.services.Keys
        invariant forall n | n in spec.services && n !in todo :: api.config(n) && n in frame.shortNames
        decreases |todo|
      {
        var n :| n in todo;
        if !api.config(n) || n !in frame.shortNames {
          return false, true;
        }
        todo := todo - {n};
      }
      changed, failed := UpdateFromConfigs(frame, changed, listing, sorted, now, api);
    }

    method UpdateFromConfigs(frame: Frame, dated: bool, listing: seq<string>, sorted: seq<string>, now: int, api: Api)
      returns (changed: bool, failed: bool)
      requires IsDigest(frame.md5) && IsOrderOf(listing, backups.Keys) && IsSortedFinished(sorted, backups)
      modifies this`status, this`backups
      ensures Result(Value(), changed, failed) == AfterConfigs(frame, old(Value()), dated, listing, sorted, now, api)
    {
      hide Services, HandleBackups, Reschedule, Reschedules, IsSortedFinished, IsOrderOf;
      var servicesChanged := UpdateServices(frame);
      changed := dated || servicesChanged;
      status := status.(hasHealth := true);
      var rescheduled, unparsed := UpdateNext(frame, now);
      if unparsed {
        return changed, true;
      }
      changed := changed || rescheduled;
      var handled := UpdateBackups(listing, sorted, api);
      changed, failed := changed || handled.changed, handled.failed;
    }

    method UpdateBackups(listing: seq<string>, sorted: seq<string>, api: Api) returns (r: Handled)
      requires IsOrderOf(listing, backups.Keys) && IsSortedFinished(sorted, backups)
      modifies this`status, this`backups
      ensures r == HandleBackups(old(backups), old(status).last, listing, sorted, api)
      ensures backups == r.backups && status == old(status).(last := r.last)
    {
      hide ScanBackups, Delete, IsSortedFinished;
      if !api.list {
        return Handled(backups, status.last, false, true);
      }
      var s := ScanAll(listing, api);
      var changed := s.last != status.last;
      if s.failed {
        return Handled(backups, status.last, changed, true);
      }
      FinishedLength(old(backups), s, listing, sorted, api, Scan(old(backups), status.last, [], false, false));
      status := status.(last := s.last);
      if s.claimed {
        return Handled(backups, s.last, true, false);
      }
      var failed := CleanUp(s.finished, sorted, api);
      r := Handled(backups, s.last, changed, failed);
    }

    method UpdateNext(frame: Frame, now: int) returns (changed: bool, failed: bool)
      modifies this`status
      ensures var next := Reschedule(frame.fnv, name, spec.backupHour, old(status).next, now);
              status == old(status).(next := next.time) && failed == next.failed
      ensures changed == Reschedules(spec.backupHour, old(status).next)
    {
      changed, failed := false, false;
      if spec.backupHour != None {
        if status.next == None || HourOf(status.next.value) != spec.backupHour.value {
          var next := GetNextBackupTimeForSite(frame.fnv, name, spec.backupHour, now);
          status := status.(next := next.time);
          return true, next.failed;
        }
      } else if status.next != None {
        status := status.(next := None);
        changed := true;
      }
    }
  }

  lemma EntryRedis(frame: Frame, spec: SiteSpec, service: string, redisNumber: string)
    requires IsDigest(frame.md5)
    ensures Entry(frame, spec, service, redisNumber).redisNumber == redisNumber
  {
  }

  lemma ScanNothing(s: Scan, api: Api)
    ensures ScanBackups(s, [], api) == s
  {
  }

  lemma ScanOneMore(s: Scan, listing: seq<string>, i: nat, api: Api)
    requires i < |listing|
    ensures ScanBackups(s, listing[..i + 1], api) == ScanStep(ScanBackups(s, listing[..i], api), listing[i], api)
  {
    hide ScanStep;
    assert listing[..i + 1][..i] == listing[..i];
  }

  lemma {:induction false} ScanStopsAtFailure(s: Scan, listing: seq<string>, k: nat, api: Api)
    requires k <= |listing| && ScanBackups(s, listing[..k], api).failed
    ensures ScanBackups(s, listing, api) == ScanBackups(s, listing[..k], api)
    decreases |listing|
  {
    if k == |listing| {
      assert listing[..k] == listing;
    } else {
      var front := listing[..|listing| - 1];
      assert front[..k] == listing[..k];
      ScanStopsAtFailure(s, front, k, api);
    }
  }

  lemma {:induction false} DeleteStopsAtFailure(backups: map<string, Backup>, sorted: seq<string>, k: nat, count: nat,
                                                api: Api)
    requires k <= count <= |sorted| && Delete(backups, sorted, k, api).1
    ensures Delete(backups, sorted, count, api) == Delete(backups, sorted, k, api)
  {
    if k < count {
      DeleteStopsAtFailure(backups, sorted, k, count - 1, api);
    }
  }

  // What the loop over the Backups establishes

  ghost predicate AtLeast(last: Option<int>, backup: Backup) {
    backup.state == Complete && backup.finishedAt.Some? ==> last.Some? && last.value >= backup.finishedAt.value
  }

  ghost predicate NotEarlier(after: Option<int>, before: Option<int>) {
    before.Some? ==> after.Some? && after.value >= before.value
  }

  /** The same Backups, of which some may have been adopted. */
  ghost predicate OnlyAdopted(before: map<string, Backup>, after: map<string, Backup>) {
    before.Keys == after.Keys && forall n | n in before ::
        after[n] == before[n]
        || after[n] == before[n].(controlled := true)
  }

  /** One step over a Backup that is there. */
  lemma StepFacts(s: Scan, name: string, api: Api)
    requires name in s.backups && !s.failed
    ensures var s' := ScanStep(s, name, api);
            && OnlyAdopted(s.backups, s'.backups)
            && s'.last == Latest(s.last, s.backups[name])
            && s'.failed == (!s.backups[name].controlled && api.claim(name) != Ok)
            && s'.claimed == (s.claimed || (!s.backups[name].controlled && api.claim(name) == Ok))
            && (!s'.failed ==> s'.backups[name].controlled)
            && (s.backups[name].controlled ==> s'.backups == s.backups)
            && s'.finished == if s.backups[name].state.IsFinal() then s.finished + [name] else s.finished
  {
  }

  lemma {:induction false} ScanAdopts(s: Scan, listing: seq<string>, api: Api)
    requires !s.failed && forall n | n in listing :: n in s.backups
    ensures var s' := ScanBackups(s, listing, api);
            && OnlyAdopted(s.backups, s'.backups) && NotEarlier(s'.last, s.last)
            && (!s'.failed ==> forall n | n in listing :: AtLeast(s'.last, s.backups[n]) && s'.backups[n].controlled)
  {
    if listing != [] {
      var front, name := listing[..|listing| - 1], listing[|listing| - 1];
      ScanAdopts(s, front, api);
      assert forall n | n in listing :: n in front || n == name;
      var mid := ScanBackups(s, front, api);
      if !mid.failed {
        StepFacts(mid, name, api);
        hide ScanStep;
      }
    }
  }

  lemma {:induction false} ScanIsQuiet(s: Scan, listing: seq<string>, api: Api)
    requires !s.failed && forall n | n in listing ::
        n in s.backups && AtLeast(s.last, s.backups[n])
        && s.backups[n].controlled
    ensures var s' := ScanBackups(s, listing, api);
            s'.last == s.last && !s'.failed && s'.claimed == s.claimed && s'.backups == s.backups
  {
    if listing != [] {
      ScanIsQuiet(s, listing[..|listing| - 1], api);
    }
  }

  /** Once all Backups are adopted the loop does not fail. */
  lemma {:induction false} ScanOfAdopted(s: Scan, listing: seq<string>, api: Api)
    requires !s.failed && forall n | n in listing :: n in s.backups && s.backups[n].controlled
    ensures var s' := ScanBackups(s, listing, api);
            !s'.failed && s'.claimed == s.claimed && s'.backups == s.backups
  {
    if listing != [] {
      ScanOfAdopted(s, listing[..|listing| - 1], api);
    }
  }

  lemma AppendOrder(order: seq<string>, names: set<string>, name: string)
    requires IsOrderOf(order, names) && name !in names
    ensures IsOrderOf(order + [name], names + {name})
  {
  }

  lemma {:induction false} ScanFinished(s: Scan, listing: seq<string>, api: Api)
    requires s.finished == [] && IsOrderOf(listing, ToSet(listing)) && forall n | n in listing :: n in s.backups
    requires !s.failed && !ScanBackups(s, listing, api).failed
    ensures IsOrderOf(ScanBackups(s, listing, api).finished, Finished(s.backups) * ToSet(listing))
  {
    if listing != [] {
      var front, name := listing[..|listing| - 1], listing[|listing| - 1];
      ScanFinished(s, front, api);
      ScanAdopts(s, front, api);
      var mid, seen := ScanBackups(s, front, api), Finished(s.backups) * ToSet(front);
      StepFacts(mid, name, api);
      assert ScanBackups(s, listing, api) == ScanStep(mid, name, api);
      hide ScanStep, ScanBackups;
      assert name !in front && ToSet(listing) == ToSet(front) + {name};
      if s.backups[name].state.IsFinal() {
        AppendOrder(mid.finished, seen, name);
        assert Finished(s.backups) * ToSet(listing) == seen + {name};
      } else {
        assert Finished(s.backups) * ToSet(listing) == seen;
      }
    }
  }

  lemma FinishedLength(backups: map<string, Backup>, s: Scan, listing: seq<string>, sorted: seq<string>, api: Api,
                       start: Scan)
    requires start.backups == backups && start.finished == [] && !start.failed
    requires s == ScanBackups(start, listing, api) && !s.failed
    requires IsOrderOf(listing, backups.Keys) && IsSortedFinished(sorted, backups)
    ensures |s.finished| == |sorted|
  {
    assert ToSet(listing) == backups.Keys;
    hide IsSorted;
    ScanFinished(start, listing, api);
    assert Finished(backups) * ToSet(listing) == Finished(backups);
    OrderLength(s.finished, Finished(backups));
    OrderLength(sorted, Finished(backups));
  }

  // Retention

  lemma {:induction false} DeleteFacts(backups: map<string, Backup>, sorted: seq<string>, count: nat, api: Api)
    requires count <= |sorted| && IsOrderOf(sorted, ToSet(sorted)) && ToSet(sorted) <= backups.Keys
    ensures var (kept, failed) := Delete(backups, sorted, count, api);
            && kept.Keys <= backups.Keys
            && (forall n | n in kept :: kept[n] == backups[n])
            && (!failed ==> kept.Keys == backups.Keys - ToSet(sorted[..count]))
            && (exists k: nat :: k <= count && kept.Keys == backups.Keys - ToSet(sorted[..k]))
  {
    if count == 0 {
      assert sorted[..0] == [];
      assert ToSet(sorted[..0]) == {};
    } else {
      DeleteFacts(backups, sorted, count - 1, api);
      var (before, stopped) := Delete(backups, sorted, count - 1, api);
      assert ToSet(sorted[..count]) == ToSet(sorted[..count - 1]) + {sorted[count - 1]};
      if !stopped {
        var (kept, _) := Delete(backups, sorted, count, api);
        assert kept.Keys == backups.Keys - ToSet(sorted[..if api.delete(sorted[count - 1]) == Rejected then count - 1
            else count]);
      }
    }
  }

  ghost predicate CleansUp(before: map<string, Backup>, after: map<string, Backup>) {
    && (forall n | n in before && n !in after :: before[n].state.IsFinal())
    && (forall kept, gone | kept in after && kept in before && before[kept].state.IsFinal() && gone in before
        && gone !in after ::
          !StartsBefore(before[kept].startedAt, before[gone].startedAt))
  }

  lemma PrefixIff(order: seq<string>, k: nat, i: nat)
    requires k <= |order| && i < |order| && IsOrderOf(order, ToSet(order))
    ensures order[i] in ToSet(order[..k]) <==> i < k
  {
    if i < k {
      assert order[..k][i] == order[i];
    }
    if order[i] in order[..k] {
      var j :| 0 <= j < k && order[..k][j] == order[i];
      assert order[j] == order[i];
    }
  }

  lemma PrefixCleansUp(sorted: seq<string>, before: map<string, Backup>, after: map<string, Backup>, k: nat)
    requires k <= |sorted| && IsSortedFinished(sorted, before) && after.Keys == before.Keys - ToSet(sorted[..k])
    ensures CleansUp(before, after)
  {
    forall gone | gone in before && gone !in after ensures gone in Finished(before) {
      assert gone in sorted[..k] && gone in sorted;
    }
    forall kept, gone | kept in after && kept in before && before[kept].state.IsFinal() && gone in before
        && gone !in after
      ensures !StartsBefore(before[kept].startedAt, before[gone].startedAt)
    {
      assert kept in Finished(before) && gone in Finished(before);
      var i :| 0 <= i < |sorted| && sorted[i] == kept;
      var j :| 0 <= j < |sorted| && sorted[j] == gone;
      PrefixIff(sorted, k, i);
      PrefixIff(sorted, k, j);
    }
  }

  lemma KeptFinished(backups: map<string, Backup>, kept: map<string, Backup>, sorted: seq<string>, count: nat)
    requires IsSortedFinished(sorted, backups) && count <= |sorted|
    requires kept.Keys == backups.Keys - ToSet(sorted[..count]) && forall n | n in kept :: kept[n] == backups[n]
    ensures |Finished(kept)| == |sorted| - count
  {
    forall n ensures n in sorted[count..] <==> n in Finished(kept) {
      if n in Finished(backups) {
        var i :| 0 <= i < |sorted| && sorted[i] == n;
        PrefixIff(sorted, count, i);
        if count <= i {
          assert sorted[count..][i - count] == n;
        }
      }
      if n in sorted[count..] {
        assert n in Finished(backups);
      }
    }
    OrderLength(sorted[count..], Finished(kept));
  }

  lemma SortedAfterScan(before: map<string, Backup>, after: map<string, Backup>, sorted: seq<string>)
    requires OnlyAdopted(before, after) && IsSortedFinished(sorted, before)
    ensures IsSortedFinished(sorted, after) && Finished(after) == Finished(before)
  {
    assert Finished(after) == Finished(before);
    forall i | 0 <= i < |sorted| ensures sorted[i] in before && sorted[i] in after {
      assert sorted[i] in sorted;
      assert sorted[i] in Finished(before);
    }
    forall i, j | 0 <= i < j < |sorted| ensures !StartsBefore(after[sorted[j]].startedAt, after[sorted[i]].startedAt) {
      assert sorted[i] in Finished(before) && sorted[j] in Finished(before);
    }
  }

  ghost predicate AllSeen(backups: map<string, Backup>, last: Option<int>) {
    forall n | n in backups :: AtLeast(last, backups[n])
  }

  ghost predicate AllControlled(backups: map<string, Backup>) {
    forall n | n in backups :: backups[n].controlled
  }

  /** What the loop hands over to the clean-up. */
  lemma ScanOfSite(backups: map<string, Backup>, last: Option<int>, listing: seq<string>, api: Api)
    requires IsOrderOf(listing, backups.Keys)
    ensures var s := ScanBackups(Scan(backups, last, [], false, false), listing, api);
            && OnlyAdopted(backups, s.backups) && NotEarlier(s.last, last)
            && (!s.failed ==> AllSeen(backups, s.last) && AllControlled(s.backups))
            && (AllSeen(backups, last) && AllControlled(backups) ==> s.last == last)
            && (AllControlled(backups) ==> !s.failed && !s.claimed && s.backups == backups)
  {
    var start := Scan(backups, last, [], false, false);
    ScanAdopts(start, listing, api);
    if AllSeen(backups, last) && AllControlled(backups) {
      ScanIsQuiet(start, listing, api);
    }
    if AllControlled(backups) {
      ScanOfAdopted(start, listing, api);
    }
    hide ScanBackups;
  }

  /** The loop, the clean-up and the early exits together. */
  lemma HandledFacts(backups: map<string, Backup>, last: Option<int>, listing: seq<string>, sorted: seq<string>,
                     api: Api)
    requires IsOrderOf(listing, backups.Keys) && IsSortedFinished(sorted, backups)
    ensures var r := HandleBackups(backups, last, listing, sorted, api);
            && CleansUp(backups, r.backups) && r.backups.Keys <= backups.Keys && NotEarlier(r.last, last)
            && (!r.failed ==> AllSeen(backups, r.last) && AllSeen(r.backups, r.last) && AllControlled(r.backups))
            && (AllSeen(backups, last) && AllControlled(backups) ==> r.last == last && !r.changed)
            && (!r.failed && AllControlled(backups) ==>
                  |Finished(r.backups)| == if |Finished(backups)| < KEPT_BACKUPS then |Finished(backups)|
                      else KEPT_BACKUPS)
  {
    var start := Scan(backups, last, [], false, false);
    var s := ScanBackups(start, listing, api);
    ScanOfSite(backups, last, listing, api);
    SortedAfterScan(backups, s.backups, sorted);
    OrderLength(sorted, Finished(backups));
    hide ScanBackups, Delete, IsSortedFinished, Finished, AllSeen, AllControlled, CleansUp, OnlyAdopted, NotEarlier,
        IsOrderOf;
    SameKeys(backups, s.backups);
    if api.list && !s.failed {
      FinishedLength(backups, s, listing, sorted, api, start);
      var (kept, failed) := Delete(s.backups, sorted, Surplus(s.finished), api);
      RetentionAfterScan(s.backups, sorted, Surplus(s.finished), api);
      CleansUpAdopted(backups, s.backups, kept);
      AdoptedFacts(backups, s.backups, kept, s.last);
      AdoptedFacts(backups, s.backups, s.backups, s.last);
    }
  }

  lemma SameKeys(before: map<string, Backup>, after: map<string, Backup>)
    requires OnlyAdopted(before, after)
    ensures CleansUp(before, after) && CleansUp(before, before) && after.Keys == before.Keys
  {
  }

  lemma AdoptedFacts(before: map<string, Backup>, mid: map<string, Backup>, after: map<string, Backup>,
                     last: Option<int>)
    requires OnlyAdopted(before, mid) && AllSeen(before, last) && AllControlled(mid)
    requires after.Keys <= mid.Keys && forall n | n in after :: after[n] == mid[n]
    ensures AllSeen(after, last) && AllControlled(after)
  {
  }

  lemma CleansUpAdopted(before: map<string, Backup>, mid: map<string, Backup>, after: map<string, Backup>)
    requires OnlyAdopted(before, mid) && CleansUp(mid, after)
    ensures CleansUp(before, after)
  {
  }

  lemma RetentionAfterScan(backups: map<string, Backup>, sorted: seq<string>, count: nat, api: Api)
    requires IsSortedFinished(sorted, backups) && count <= |sorted|
    ensures var (kept, failed) := Delete(backups, sorted, count, api);
            && CleansUp(backups, kept) && kept.Keys <= backups.Keys && (forall n | n in kept :: kept[n] == backups[n])
            && (!failed ==> |Finished(kept)| == |sorted| - count)
  {
    assert ToSet(sorted) == Finished(backups);
    DeleteFacts(backups, sorted, count, api);
    var (kept, failed) := Delete(backups, sorted, count, api);
    hide Delete, IsSortedFinished;
    var k: nat :| k <= count && kept.Keys == backups.Keys - ToSet(sorted[..k]);
    PrefixCleansUp(sorted, backups, kept, k);
    if !failed {
      KeptFinished(backups, kept, sorted, count);
    }
  }

  /** A pass that gets as far as the Backups handles them; another one does not touch them. */
  lemma PassAndBackups(frame: Frame, site: Site, listing: seq<string>, sorted: seq<string>, now: int, api: Api)
    requires IsDigest(frame.md5)
    ensures var r, h := StatusPass(frame, site, listing, sorted, now, api),
        HandleBackups(site.backups, site.status.last, listing, sorted, api);
            || (r.site.backups == site.backups && r.site.status.last == site.status.last
                && (r.failed || !site.annotation.ChangedAt?))
            || (r.site.backups == h.backups && r.site.status.last == h.last && r.failed == h.failed)
  {
    hide HandleBackups, Deadline, ShouldBeEnabled, ConfigsRead, Services, Reschedule, Reschedules;
  }

  /** Retention, for every order that the sort may return.  A pass only ever deletes finished Backups,
      and none that started later than a finished one it keeps, failures included.  Without a failure,
      once all Backups are adopted, it leaves exactly three of them, or all if there were fewer. */
  lemma Retention(frame: Frame, site: Site, listing: seq<string>, sorted: seq<string>, now: int, api: Api)
    requires IsDigest(frame.md5) && IsOrderOf(listing, site.backups.Keys) && IsSortedFinished(sorted, site.backups)
    ensures var r := StatusPass(frame, site, listing, sorted, now, api);
            && CleansUp(site.backups, r.site.backups)
            && r.site.backups.Keys <= site.backups.Keys
            && (!r.failed && site.annotation.ChangedAt? && AllControlled(site.backups) ==>
                  |Finished(r.site.backups)| == if |Finished(site.backups)| < KEPT_BACKUPS then |Finished(site.backups)|
                      else KEPT_BACKUPS)
  {
    PassAndBackups(frame, site, listing, sorted, now, api);
    HandledFacts(site.backups, site.status.last, listing, sorted, api);
    hide StatusPass, HandleBackups, IsSortedFinished, Finished;
  }

  /** For the time of the next backup a pass is a `Refresh`: it is rescheduled or left alone, failures
      included. */
  lemma PassIsRefresh(frame: Frame, site: Site, listing: seq<string>, sorted: seq<string>, now: int, api: Api)
    requires IsDigest(frame.md5)
    ensures var next := StatusPass(frame, site, listing, sorted, now, api).site.status.next;
            || next == site.status.next
            || next == Reschedule(frame.fnv, site.name, site.spec.backupHour, site.status.next, now).time
  {
    hide HandleBackups, Deadline, ShouldBeEnabled, ConfigsRead, Services, Reschedule, Reschedules;
  }

  // The fixpoint

  /** What is saved: the state and health are recomputed from flags that are not part of this module. */
  ghost function Saved(site: Site, state: SiteState): Site {
    site.(status := site.status.(state := state, hasHealth := true))
  }

  /** The defining formulas of the status. */
  ghost predicate IsUpToDate(site: Site, now: int)
    requires site.annotation.ChangedAt?
  {
    var status, spec := site.status, site.spec;
    && status.services.Keys == spec.services.Keys
    && status.disableAt == Deadline(spec.disableAfter, site.annotation.at)
    && status.deleteAt == Deadline(spec.deleteAfter, site.annotation.at)
    && status.enabled == ShouldBeEnabled(spec, status.disableAt, now)
    && status.lastApplied.Some? && status.lastApplied.value >= site.annotation.at
    && (spec.backupHour == None ==> status.next == None)
    && AllSeen(site.backups, status.last)
  }

  predicate HourIsRight(site: Site) {
    site.spec.backupHour.Some? ==>
        site.status.next.Some?
        && HourOf(site.status.next.value) == site.spec.backupHour.value
  }

  /** A new site is pending. */
  function Entered(status: Status): Status {
    status.(state := if status.state == NoState then StatePending else status.state)
  }

  /** The status that a pass through all stages computes, but for the last backup. */
  function Planned(frame: Frame, site: Site, now: int): Status
    requires IsDigest(frame.md5) && site.annotation.ChangedAt?
  {
    var status := Entered(site.status);
    Deadlines(site.spec, site.annotation.at, status, now).(
      services := Services(frame, site.spec, status.services),
      hasHealth := true,
      next := Reschedule(frame.fnv, site.name, site.spec.backupHour, status.next, now).time)
  }

  lemma PassValue(frame: Frame, site: Site, listing: seq<string>, sorted: seq<string>, now: int, api: Api)
    requires IsDigest(frame.md5) && site.annotation.ChangedAt?
        && !StatusPass(frame, site, listing, sorted, now, api).failed
    ensures var r, h := StatusPass(frame, site, listing, sorted, now, api),
        HandleBackups(site.backups, site.status.last, listing, sorted, api);
            && r.site == site.(status := Planned(frame, site, now).(last := h.last), backups := h.backups) && !h.failed
            && !Reschedule(frame.fnv, site.name, site.spec.backupHour, site.status.next, now).failed
            && (r.changed <==>
                 || Deadlines(site.spec, site.annotation.at, Entered(site.status), now) != Entered(site.status)
                 || site.status.services.Keys != site.spec.services.Keys
                 || Reschedules(site.spec.backupHour, site.status.next)
                 || h.changed)
  {
    hide HandleBackups, Deadline, ShouldBeEnabled, ConfigsRead, Services, Reschedule, Reschedules;
  }

  lemma PlannedIsUpToDate(frame: Frame, site: Site, now: int, last: Option<int>, backups: map<string, Backup>)
    requires IsDigest(frame.md5) && site.annotation.ChangedAt?
    requires !Reschedule(frame.fnv, site.name, site.spec.backupHour, site.status.next, now).failed
    requires AllSeen(backups, last)
    ensures var site' := site.(status := Planned(frame, site, now).(last := last), backups := backups);
            && IsUpToDate(site', now)
            && site'.status.services == Services(frame, site.spec, site'.status.services)
            && site'.status.next == Reschedule(frame.fnv, site.name, site.spec.backupHour, site.status.next, now).time
  {
    hide Deadline, ShouldBeEnabled, AllSeen, NextTime, HourOf;
    ServicesAgain(frame, site.spec, site.status.services);
    hide Services;
  }

  lemma ServicesAgain(frame: Frame, spec: SiteSpec, services: map<string, ServiceStatus>)
    requires IsDigest(frame.md5)
    ensures var s := Services(frame, spec, services);
            s.Keys == spec.services.Keys && Services(frame, spec, s) == s
  {
    var s := Services(frame, spec, services);
    forall n | n in s ensures Entry(frame, spec, n, s[n].redisNumber) == s[n] {
    }
  }

  /** A pass that does not fail, past the annotation, leaves a status that meets its formulas, whether or
      not it reports a change. */
  lemma PassEstablishes(frame: Frame, site: Site, listing: seq<string>, sorted: seq<string>, now: int, api: Api)
    requires IsDigest(frame.md5) && IsOrderOf(listing, site.backups.Keys) && IsSortedFinished(sorted, site.backups)
    requires site.annotation.ChangedAt? && !StatusPass(frame, site, listing, sorted, now, api).failed
    ensures var site' := StatusPass(frame, site, listing, sorted, now, api).site;
            && site'.annotation == site.annotation && site'.spec == site.spec && site'.name == site.name
            && IsUpToDate(site', now)
            && site'.status.services == Services(frame, site.spec, site'.status.services)
            && AllControlled(site'.backups)
            && site'.status.next == Reschedule(frame.fnv, site.name, site.spec.backupHour, site.status.next, now).time
            && !Reschedule(frame.fnv, site.name, site.spec.backupHour, site.status.next, now).failed
  {
    PassValue(frame, site, listing, sorted, now, api);
    HandledFacts(site.backups, site.status.last, listing, sorted, api);
    var h := HandleBackups(site.backups, site.status.last, listing, sorted, api);
    hide StatusPass, HandleBackups, Planned, IsUpToDate, Services, CleansUp, IsSortedFinished, IsOrderOf;
    PlannedIsUpToDate(frame, site, now, h.last, h.backups);
  }

  /** Exactly when a pass over an up-to-date site reports a change. */
  lemma QuietExactly(frame: Frame, site: Site, listing: seq<string>, sorted: seq<string>, now: int, api: Api)
    requires IsDigest(frame.md5) && IsOrderOf(listing, site.backups.Keys) && IsSortedFinished(sorted, site.backups)
    requires site.annotation.ChangedAt? && IsUpToDate(site, now) && AllControlled(site.backups)
    requires site.status.state != NoState && site.status.hasHealth
        && site.status.services == Services(frame, site.spec, site.status.services)
    requires !StatusPass(frame, site, listing, sorted, now, api).failed
    ensures var r := StatusPass(frame, site, listing, sorted, now, api);
            && (r.changed <==> !HourIsRight(site))
            && (!r.changed ==> r.site.status == site.status)
  {
    PassValue(frame, site, listing, sorted, now, api);
    HandledFacts(site.backups, site.status.last, listing, sorted, api);
    hide StatusPass, HandleBackups, Finished, CleansUp, NextTime, Entry, IsSortedFinished, HourOf;
    assert Deadlines(site.spec, site.annotation.at, site.status, now) == site.status;
  }

  /** Running the pass on what it has saved: with the clock fixed and no failing call, the second pass
      reports a change exactly when the backup hour is negative, however the Backups are listed and
      sorted.  Hours past 23 fail every pass instead. */
  lemma Fixpoint(frame: Frame, site: Site, state: SiteState, listing: seq<string>, sorted: seq<string>, now: int,
                 api: Api,
                 listing': seq<string>, sorted': seq<string>, api': Api)
    requires IsDigest(frame.md5) && IsOrderOf(listing, site.backups.Keys) && IsSortedFinished(sorted, site.backups)
    requires site.annotation.ChangedAt? && state != NoState
    requires !StatusPass(frame, site, listing, sorted, now, api).failed
    requires var saved := Saved(StatusPass(frame, site, listing, sorted, now, api).site, state);
             && IsOrderOf(listing', saved.backups.Keys) && IsSortedFinished(sorted', saved.backups)
             && !StatusPass(frame, saved, listing', sorted', now, api').failed
    ensures var saved := Saved(StatusPass(frame, site, listing, sorted, now, api).site, state);
            var r := StatusPass(frame, saved, listing', sorted', now, api');
            && (r.changed <==> site.spec.backupHour.Some? && site.spec.backupHour.value < 0)
            && (!r.changed ==> r.site.status == saved.status)
            && IsUpToDate(saved, now)
  {
    PassEstablishes(frame, site, listing, sorted, now, api);
    var saved := Saved(StatusPass(frame, site, listing, sorted, now, api).site, state);
    hide StatusPass, Services, IsSortedFinished;
    QuietExactly(frame, saved, listing', sorted', now, api');
    HourAfterReschedule(frame, site, now);
  }

  lemma HourAfterReschedule(frame: Frame, site: Site, now: int)
    requires !Reschedule(frame.fnv, site.name, site.spec.backupHour, site.status.next, now).failed
    ensures var next := Reschedule(frame.fnv, site.name, site.spec.backupHour, site.status.next, now).time;
            HourIsRight(site.(status := site.status.(next := next))) <==>
              site.spec.backupHour == None || site.spec.backupHour.value >= 0
  {
    var hour := site.spec.backupHour;
    if hour.Some? && IsHour(hour.value) {
      NextSlotIsTheOne(frame.fnv, site.name, hour.value, now, NextSlot(frame.fnv, site.name, hour.value, now));
    }
    if site.status.next.Some? {
      assert 0 <= HourOf(site.status.next.value) <= 23;
    }
    hide NextSlot, HourOf;
  }

  ghost predicate ErrorFree(api: Api) {
    && api.update == Ok && api.list
    && (forall n :: api.config(n)) && (forall n :: api.claim(n) == Ok) && (forall n :: api.delete(n) == Ok)
  }

  lemma {:induction false} DeleteSucceeds(backups: map<string, Backup>, sorted: seq<string>, count: nat, api: Api)
    requires count <= |sorted| && ErrorFree(api)
    ensures !Delete(backups, sorted, count, api).1
  {
    if count > 0 {
      DeleteSucceeds(backups, sorted, count - 1, api);
    }
  }

  lemma {:induction false} ScanSucceeds(s: Scan, listing: seq<string>, api: Api)
    requires !s.failed && ErrorFree(api)
    ensures !ScanBackups(s, listing, api).failed
  {
    if listing != [] {
      ScanSucceeds(s, listing[..|listing| - 1], api);
    }
  }

  lemma HandledSucceeds(backups: map<string, Backup>, last: Option<int>, listing: seq<string>, sorted: seq<string>,
                        api: Api)
    requires ErrorFree(api)
    ensures !HandleBackups(backups, last, listing, sorted, api).failed
  {
    var s := ScanBackups(Scan(backups, last, [], false, false), listing, api);
    ScanSucceeds(Scan(backups, last, [], false, false), listing, api);
    if Surplus(s.finished) <= |sorted| {
      DeleteSucceeds(s.backups, sorted, Surplus(s.finished), api);
    }
    hide ScanBackups, Delete;
  }

  lemma FailedStage(frame: Frame, site: Site, listing: seq<string>, sorted: seq<string>, now: int, api: Api)
    requires IsDigest(frame.md5) && site.annotation.ChangedAt?
    ensures StatusPass(frame, site, listing, sorted, now, api).failed <==>
              || !ConfigsRead(frame, site.spec, api)
              || Reschedule(frame.fnv, site.name, site.spec.backupHour, site.status.next, now).failed
              || HandleBackups(site.backups, site.status.last, listing, sorted, api).failed
  {
    hide ConfigsRead, HandleBackups, Services, Deadline, ShouldBeEnabled, Reschedule, Reschedules;
  }

  /** Where no call fails, a pass fails exactly when a service has no config or the hour does not parse. */
  lemma FailsExactly(frame: Frame, site: Site, listing: seq<string>, sorted: seq<string>, now: int, api: Api)
    requires IsDigest(frame.md5) && site.annotation.ChangedAt? && ErrorFree(api)
    ensures StatusPass(frame, site, listing, sorted, now, api).failed <==>
              || (exists n :: n in site.spec.services && n !in frame.shortNames)
              || (site.spec.backupHour.Some? && site.spec.backupHour.value > 23)
  {
    HandledSucceeds(site.backups, site.status.last, listing, sorted, api);
    FailedStage(frame, site, listing, sorted, now, api);
    HourStaysBelow24(site.status.next);
    hide StatusPass, HandleBackups, HourOf, NextSlot;
  }

  lemma HourStaysBelow24(next: Option<int>)
    ensures next.Some? ==> 0 <= HourOf(next.value) <= 23
  {
  }

  /** A missing or garbled annotation is written first, and that pass always reports a change. */
  lemma AnnotationFirst(frame: Frame, site: Site, listing: seq<string>, sorted: seq<string>, now: int, api: Api)
    requires IsDigest(frame.md5) && !site.annotation.ChangedAt?
    ensures var r := StatusPass(frame, site, listing, sorted, now, api);
            && (r.failed <==> api.update != Ok) && (r.changed <==> api.update == Ok)
            && (r.changed ==> r.site.annotation == ChangedAt(now)) && r.site.backups == site.backups
  {
  }

  /** What is recorded as the last backup never goes back, failures included, and a pass that gets
      through knows every completed Backup. */
  lemma LastBackupNeverDecreases(frame: Frame, site: Site, listing: seq<string>, sorted: seq<string>, now: int,
                                 api: Api)
    requires IsDigest(frame.md5) && IsOrderOf(listing, site.backups.Keys) && IsSortedFinished(sorted, site.backups)
    ensures var r := StatusPass(frame, site, listing, sorted, now, api);
            && NotEarlier(r.site.status.last, site.status.last)
            && (!r.failed && site.annotation.ChangedAt? ==> AllSeen(site.backups, r.site.status.last))
  {
    PassAndBackups(frame, site, listing, sorted, now, api);
    HandledFacts(site.backups, site.status.last, listing, sorted, api);
    hide StatusPass, HandleBackups, Finished, CleansUp, Services, Reschedule, Reschedules, IsSortedFinished;
  }

  lemma {:induction false} QuietScanClaimsNothing(s: Scan, listing: seq<string>, api: Api)
    requires (forall n | n in listing :: n in s.backups) && !ScanBackups(s, listing, api).failed
    requires !ScanBackups(s, listing, api).claimed && IsOrderOf(listing, ToSet(listing))
    ensures !s.failed && !s.claimed
    ensures ScanBackups(s, listing, api).backups == s.backups && forall n | n in listing :: s.backups[n].controlled
  {
    if listing != [] {
      var front, name := listing[..|listing| - 1], listing[|listing| - 1];
      assert forall n | n in front :: n in listing;
      QuietScanClaimsNothing(s, front, api);
      assert forall n | n in listing :: n in front || n == name;
    }
  }

  /** Handling the Backups is a change exactly when one of them is new to the status or to its owner. */
  lemma HandledChangesExactly(backups: map<string, Backup>, last: Option<int>, listing: seq<string>,
                              sorted: seq<string>, api: Api)
    requires IsOrderOf(listing, backups.Keys) && IsSortedFinished(sorted, backups)
    requires !HandleBackups(backups, last, listing, sorted, api).failed
    ensures HandleBackups(backups, last, listing, sorted, api).changed <==>
            !(AllSeen(backups, last) && AllControlled(backups))
  {
    HandledFacts(backups, last, listing, sorted, api);
    var start := Scan(backups, last, [], false, false);
    var s := ScanBackups(start, listing, api);
    assert ToSet(listing) == backups.Keys;
    ScanOfSite(backups, last, listing, api);
    hide ScanBackups, Delete, IsSortedFinished, Finished, AllSeen, CleansUp, OnlyAdopted, NotEarlier;
    if !s.claimed {
      QuietScanClaimsNothing(start, listing, api);
      assert forall n | n in backups :: n in listing;
    }
  }

  lemma DatedExactly(frame: Frame, site: Site, now: int)
    requires site.annotation.ChangedAt?
    ensures IsUpToDate(site, now) && HourIsRight(site) <==>
              && Deadlines(site.spec, site.annotation.at, Entered(site.status), now) == Entered(site.status)
              && site.status.services.Keys == site.spec.services.Keys
              && !Reschedules(site.spec.backupHour, site.status.next)
              && AllSeen(site.backups, site.status.last)
  {
    hide Deadline, ShouldBeEnabled, AllSeen, HourOf;
  }

  /** Exactly when a pass that does not fail reports a change, for every site. */
  lemma ChangedExactly(frame: Frame, site: Site, listing: seq<string>, sorted: seq<string>, now: int, api: Api)
    requires IsDigest(frame.md5) && IsOrderOf(listing, site.backups.Keys) && IsSortedFinished(sorted, site.backups)
    requires site.annotation.ChangedAt? && !StatusPass(frame, site, listing, sorted, now, api).failed
    ensures StatusPass(frame, site, listing, sorted, now, api).changed <==>
            !(IsUpToDate(site, now) && AllControlled(site.backups) && HourIsRight(site))
  {
    PassValue(frame, site, listing, sorted, now, api);
    HandledChangesExactly(site.backups, site.status.last, listing, sorted, api);
    DatedExactly(frame, site, now);
    hide StatusPass, HandleBackups, Deadlines, Planned, IsUpToDate, HourIsRight, Entered, Reschedules, AllSeen,
        AllControlled, IsSortedFinished, IsOrderOf;
  }

  /** Exactly when a pass computes a new status without reporting it, so that nothing is saved: on a site
      that is up to date but for its user and database names, its workload health or its first state. */
  lemma UnreportedExactly(frame: Frame, site: Site, listing: seq<string>, sorted: seq<string>, now: int, api: Api)
    requires IsDigest(frame.md5) && IsOrderOf(listing, site.backups.Keys) && IsSortedFinished(sorted, site.backups)
    requires site.annotation.ChangedAt? && !StatusPass(frame, site, listing, sorted, now, api).failed
    ensures var r := StatusPass(frame, site, listing, sorted, now, api);
            !r.changed && r.site.status != site.status <==>
              && IsUpToDate(site, now) && AllControlled(site.backups) && HourIsRight(site)
              && (|| site.status.services != Services(frame, site.spec, site.status.services)
                  || !site.status.hasHealth || site.status.state == NoState)
  {
    ChangedExactly(frame, site, listing, sorted, now, api);
    PassValue(frame, site, listing, sorted, now, api);
    HandledFacts(site.backups, site.status.last, listing, sorted, api);
    DatedExactly(frame, site, now);
    hide StatusPass, HandleBackups, Finished, CleansUp, Services, IsSortedFinished, NextTime, HourOf, Deadline,
        ShouldBeEnabled, AllSeen, IsOrderOf;
  }
}
