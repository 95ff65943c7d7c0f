/** What the three job controllers share: job states, API calls that may fail, Kubernetes batch
    jobs, and the pass over a running job, which `dbinitjob_controller.go:130-186` and
    `dbmigrationjob_controller.go:120-176` spell out in the same way. */
module Jobs {

  datatype Option<+T> = None | Some(value: T)

  datatype JobState = Unset | Pending | Running | Failed | Complete {
    predicate IsFinal() { this == Failed || this == Complete }
  }

  /** How one writing API call ends.  `TimedOut` takes effect but is reported as a failure. */
  datatype Call = Ok | Rejected | TimedOut

  /** What a reconcile pass hands back to the work queue. */
  datatype Outcome = Quiet | Requeue | Error

  datatype ConditionType = JobComplete | JobFailed | OtherType

  datatype Condition = Condition(kind: ConditionType, isTrue: bool, at: int)

  datatype JobKind = Init | Migration | Backup

  /** A batch job: the type and job-name labels it was created with, the image tag in its owner's
      spec at that moment, and the conditions set on it since. */
  datatype BatchJob = BatchJob(kind: JobKind, owner: string, forTag: string, createdAt: int, conditions: seq<Condition>)

  datatype Verdict = Succeeded(at: int) | Broken | Unfinished

  /** The first true Complete or Failed condition decides. */
  function FirstVerdict(conditions: seq<Condition>): Verdict {
    if conditions == [] then Unfinished
    else if conditions[0].isTrue && conditions[0].kind == JobComplete then Succeeded(conditions[0].at)
    else if conditions[0].isTrue && conditions[0].kind == JobFailed then Broken
    else FirstVerdict(conditions[1..])
  }

  /** The verdict, without the recursion. */
  lemma {:induction false} FirstVerdictIsFirst(conditions: seq<Condition>, i: nat)
    requires i < |conditions|
    requires conditions[i].isTrue && conditions[i].kind != OtherType
    requires forall j | 0 <= j < i :: !conditions[j].isTrue || conditions[j].kind == OtherType
    ensures FirstVerdict(conditions) ==
            if conditions[i].kind == JobComplete then Succeeded(conditions[i].at) else Broken
  {
    if i > 0 {
      FirstVerdictIsFirst(conditions[1..], i - 1);
    }
  }

  method ScanConditions(conditions: seq<Condition>) returns (verdict: Verdict)
    ensures verdict == FirstVerdict(conditions)
  {
    for i := 0 to |conditions|
      invariant FirstVerdict(conditions) == FirstVerdict(conditions[i..])
    {
      var v := conditions[i];
      if v.kind == JobComplete && v.isTrue {
        return Succeeded(v.at);
      }
      if v.kind == JobFailed && v.isTrue {
        return Broken;
      }
    }
    verdict := Unfinished;
  }

  ghost function Owned(batchJobs: map<string, BatchJob>, kind: JobKind, owner: string): set<string> {
    set n | n in batchJobs && batchJobs[n].kind == kind && batchJobs[n].owner == owner
  }

  /** The status fields that init and migration jobs have in common. */
  datatype JobStatus = JobStatus(state: JobState, notFound: nat, deadline: Option<int>)

  const NOT_FOUND_LIMIT := 5
  const UINT32 := 0x1_0000_0000

  ghost function ListingVerdict(batchJobs: map<string, BatchJob>, owned: set<string>): Verdict
    requires owned <= batchJobs.Keys
  {
    if |owned| == 1 then var n :| n in owned; FirstVerdict(batchJobs[n].conditions) else Unfinished
  }

  /** One pass over a running job that found `found` batch jobs.  A missing deadline would be a nil
      dereference, which the runtime recovers without saving anything. */
  function RunningStep(status: JobStatus, found: nat, verdict: Verdict, now: int): (JobStatus, bool) {
    if found != 1 then
      var count := (status.notFound + 1) % UINT32;
      (status.(notFound := count, state := if count > NOT_FOUND_LIMIT then Failed else status.state), true)
    else
      var seen := status.(notFound := 0);
      match verdict
      case Succeeded(_) => (seen.(state := Complete), true)
      case Broken => (seen.(state := Failed), true)
      case Unfinished =>
        if status.deadline == None then (status, false)
        else if now > status.deadline.value then (seen.(state := Failed), true)
        else (seen, status.notFound > 0)
  }

  lemma SingletonMember<T>(s: set<T>, a: T, b: T)
    requires |s| == 1 && a in s && b in s
    ensures a == b
  {
    assert |s - {a}| == 0;
  }

  method ProcessRunningJob(batchJobs: map<string, BatchJob>, owned: set<string>, status: JobStatus, now: int)
    returns (result: JobStatus, changed: bool)
    requires owned <= batchJobs.Keys
    ensures (result, changed) == RunningStep(status, |owned|, ListingVerdict(batchJobs, owned), now)
  {
    result := status;
    if |owned| != 1 {
      result := result.(notFound := (result.notFound + 1) % UINT32);
      if result.notFound > NOT_FOUND_LIMIT {
        result := result.(state := Failed);
      }
      return result, true;
    }
    changed := false;
    if result.notFound > 0 {
      result := result.(notFound := 0);
      changed := true;
    }
    var batchJob :| batchJob in owned;
    var verdict := ScanConditions(batchJobs[batchJob].conditions);
    assert verdict == ListingVerdict(batchJobs, owned) by {
      ghost var n :| n in owned && ListingVerdict(batchJobs, owned) == FirstVerdict(batchJobs[n].conditions);
      SingletonMember(owned, n, batchJob);
    }
    match verdict
    case Succeeded(_) =>
      return result.(state := Complete), true;
    case Broken =>
      return result.(state := Failed), true;
    case Unfinished =>
      if status.deadline == None {
        return status, false;
      }
      if now > status.deadline.value {
        return result.(state := Failed), true;
      }
  }

  // Termination of a running job

  /** How many more passes past the deadline a running job can survive.  The counter is 32 bits
      wide and wraps; it is above the limit only where a retagged migration job kept it. */
  function Rank(status: JobStatus): nat {
    if status.state != Running then 0
    else if status.notFound % UINT32 == UINT32 - 1 then NOT_FOUND_LIMIT + 2
    else if status.notFound > NOT_FOUND_LIMIT then 1
    else NOT_FOUND_LIMIT + 1 - status.notFound
  }

  /** Past the deadline every pass either ends the job or brings the end closer, whatever batch
      jobs it finds. */
  lemma RunningStepRanks(status: JobStatus, found: nat, verdict: Verdict, now: int)
    requires status.state == Running && status.notFound < UINT32
    requires status.deadline.Some? && now > status.deadline.value
    ensures var next := RunningStep(status, found, verdict, now).0;
            && Rank(next) < Rank(status)
            && (next.state == Running || next.state.IsFinal())
            && (next.state == Running ==> found != 1 && next.notFound <= NOT_FOUND_LIMIT)
            && next.deadline == status.deadline
            && next.notFound < UINT32
  {
  }
}
