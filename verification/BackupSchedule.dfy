/** The daily backup window of a site (`controllers/site/stagingsite_controller.go:211-252, 461-472,
    552-589`).  Time is in seconds, in UTC; `fnv` is the FNV hash, of which nothing is used. */
module BackupSchedule {
  import opened Jobs

  const HOUR := 3600
  const DAY := 86400

  function HourOf(t: int): int { t % DAY / HOUR }

  function StartOfDay(t: int): int { t - t % DAY }

  /** The second of the day at which the site is backed up. */
  function Slot(fnv: string -> nat, site: string, hour: int): int {
    hour * HOUR + fnv(site) % HOUR
  }

  ghost predicate IsHour(hour: int) { 0 <= hour <= 23 }

  /** The first moment of the slot that is not over yet. */
  ghost predicate IsNextSlot(fnv: string -> nat, site: string, hour: int, now: int, t: int) {
    now <= t < now + DAY && t % DAY == Slot(fnv, site, hour)
  }

  function NextSlot(fnv: string -> nat, site: string, hour: int, now: int): int {
    var today := StartOfDay(now) + Slot(fnv, site, hour);
    if today < now then today + DAY else today
  }

  datatype Next = Next(time: Option<int>, failed: bool)

  /** Hours past 23 do not parse; negative ones switch the backup off. */
  function NextTime(fnv: string -> nat, site: string, hour: Option<int>, now: int): Next {
    if hour == None || hour.value < 0 then Next(None, false)
    else if hour.value > 23 then Next(None, true)
    else Next(Some(NextSlot(fnv, site, hour.value, now)), false)
  }

  lemma SlotOfDay(fnv: string -> nat, site: string, hour: int, start: int, t: int)
    requires IsHour(hour) && start % DAY == 0 && t == start + Slot(fnv, site, hour)
    ensures t % DAY == Slot(fnv, site, hour) && HourOf(t) == hour
  {
    var slot := Slot(fnv, site, hour);
    assert 0 <= slot < DAY;
    assert start == start / DAY * DAY;
    assert t % DAY == slot by { SplitDay(start / DAY, slot); }
    assert slot / HOUR == hour;
  }

  lemma SplitDay(days: int, rest: int)
    requires 0 <= rest < DAY
    ensures (days * DAY + rest) % DAY == rest && (days * DAY + rest) / DAY == days
  {
  }

  method GetNextBackupTimeForSite(fnv: string -> nat, site: string, hour: Option<int>, now: int) returns (next: Next)
    ensures next == NextTime(fnv, site, hour, now)
    ensures hour.Some? && IsHour(hour.value) ==>
        next.time.Some?
        && IsNextSlot(fnv, site, hour.value, now, next.time.value)
  {
    if hour == None || hour.value < 0 {
      return Next(None, false);
    }
    var offsetSeconds := fnv(site) % HOUR;
    var minutes, seconds := offsetSeconds / 60, offsetSeconds % 60;
    if hour.value > 23 {
      return Next(None, true);
    }
    var nextRunAt := StartOfDay(now) + hour.value * HOUR + minutes * 60 + seconds;
    assert nextRunAt == StartOfDay(now) + Slot(fnv, site, hour.value);
    assert now - DAY < nextRunAt;
    ghost var today := nextRunAt;
    hide Slot, StartOfDay;
    while nextRunAt < now
      invariant nextRunAt == today || (today < now <= nextRunAt && nextRunAt == today + DAY)
    {
      nextRunAt := nextRunAt + DAY;
    }
    NextSlotIsTheOne(fnv, site, hour.value, now, nextRunAt);
    next := Next(Some(nextRunAt), false);
  }

  /** The slot is unique: whatever lies in `[now, now + 24h)` at that second of the day is it. */
  lemma {:induction false} NextSlotIsTheOne(fnv: string -> nat, site: string, hour: int, now: int, t: int)
    requires IsHour(hour)
    ensures IsNextSlot(fnv, site, hour, now, t) <==> t == NextSlot(fnv, site, hour, now)
    ensures HourOf(NextSlot(fnv, site, hour, now)) == hour
  {
    var next := NextSlot(fnv, site, hour, now);
    var start := if StartOfDay(now) + Slot(fnv, site, hour) < now then StartOfDay(now) + DAY else StartOfDay(now);
    SlotOfDay(fnv, site, hour, start, next);
    if IsNextSlot(fnv, site, hour, now, t) {
      assert (t - next) % DAY == 0 by {
        assert t == t / DAY * DAY + t % DAY && next == next / DAY * DAY + next % DAY;
        SplitDay(t / DAY - next / DAY, 0);
      }
      assert -DAY < t - next < DAY;
    }
  }

  // Two places move the time: the status pass and the scheduled backup

  /** The status pass keeps a time whose hour is right. */
  function Reschedule(fnv: string -> nat, site: string, hour: Option<int>, next: Option<int>, now: int): Next {
    if hour.Some? && (next == None || HourOf(next.value) != hour.value) then NextTime(fnv, site, hour, now)
    else if hour == None then Next(None, false)
    else Next(next, false)
  }

  /** Whether the status pass reports its part as a change. */
  predicate Reschedules(hour: Option<int>, next: Option<int>) {
    if hour.Some? then next == None || HourOf(next.value) != hour.value else next.Some?
  }

  predicate IsDue(next: Option<int>, now: int) { next.Some? && next.value < now }

  /** For every later pass. */
  ghost predicate StaysDue(next: Option<int>, now: int) {
    forall later | now <= later :: IsDue(next, later)
  }

  /** `handleBackup`, where due: the time moves only after the Backup has been created. */
  function HandleBackup(fnv: string -> nat, site: string, hour: Option<int>, next: Option<int>, now: int,
                        create: Call): Next {
    if !IsDue(next, now) then Next(next, false)
    else if create != Ok then Next(next, true)
    else NextTime(fnv, site, hour, now)
  }

  /** The stored time after a pass that gets as far as the scheduled backup.  The new time is lost when
      saving the status is rejected. */
  function Attempt(fnv: string -> nat, site: string, hour: Option<int>, next: Option<int>, now: int, create: Call,
                   save: Call): Option<int> {
    if save == Rejected then next else HandleBackup(fnv, site, hour, next, now, create).time
  }

  // Runs, over the stored time

  datatype Event = Refresh(now: int, save: Call) | ScheduledBackup(now: int, create: Call, save: Call)

  ghost function Step(fnv: string -> nat, site: string, hour: int, next: Option<int>, e: Event): Option<int> {
    match e
    case Refresh(now, save) => if save == Rejected then next else Reschedule(fnv, site, Some(hour), next, now).time
    case ScheduledBackup(now, create, save) => Attempt(fnv, site, Some(hour), next, now, create, save)
  }

  ghost function Run(fnv: string -> nat, site: string, hour: int, events: seq<Event>): Option<int> {
    if events == [] then None
    else Step(fnv, site, hour, Run(fnv, site, hour, events[..|events| - 1]), events[|events| - 1])
  }

  ghost predicate InSlot(fnv: string -> nat, site: string, hour: int, next: Option<int>) {
    next.Some? ==> next.value % DAY == Slot(fnv, site, hour) && HourOf(next.value) == hour
  }

  lemma {:induction false} RunStaysInSlot(fnv: string -> nat, site: string, hour: int, events: seq<Event>)
    requires IsHour(hour)
    ensures InSlot(fnv, site, hour, Run(fnv, site, hour, events))
  {
    hide NextSlot, HourOf;
    if events != [] {
      RunStaysInSlot(fnv, site, hour, events[..|events| - 1]);
      var now := events[|events| - 1].now;
      NextSlotIsTheOne(fnv, site, hour, now, NextSlot(fnv, site, hour, now));
    }
  }

  /** The new time is in the stored status, and the Backup is there. */
  predicate IsRecorded(e: Event) {
    e.ScheduledBackup? && e.create == Ok && e.save != Rejected
  }

  lemma WholeDays(fnv: string -> nat, site: string, hour: int, before: int, after: int)
    requires IsHour(hour) && before % DAY == Slot(fnv, site, hour) && after % DAY == Slot(fnv, site, hour)
    ensures (after - before) % DAY == 0
  {
    hide Slot;
    assert after == after / DAY * DAY + after % DAY && before == before / DAY * DAY + before % DAY;
    SplitDay(after / DAY - before / DAY, 0);
    assert after - before == (after / DAY - before / DAY) * DAY + 0;
  }

  /** After any run with a fixed hour and name, a backup is due and a pass attempts it.  It stays due for
      every later pass exactly when the creation is not reported as done or the status is not saved;
      otherwise the time moves forward by whole days, to a moment that is not over. */
  lemma DueStaysExactly(fnv: string -> nat, site: string, hour: int, events: seq<Event>, now: int, create: Call,
                        save: Call)
    requires IsHour(hour) && IsDue(Run(fnv, site, hour, events), now)
    ensures var before := Run(fnv, site, hour, events);
            var after := Run(fnv, site, hour, events + [ScheduledBackup(now, create, save)]);
            && (StaysDue(after, now) <==> create != Ok || save == Rejected)
            && (create == Ok && save != Rejected ==>
                  && after.Some? && after.value > before.value && (after.value - before.value) % DAY == 0
                  && forall later :: IsDue(after, later) ==> later > now)
  {
    RunStaysInSlot(fnv, site, hour, events);
    var all := events + [ScheduledBackup(now, create, save)];
    assert all[..|all| - 1] == events;
    var before, after := Run(fnv, site, hour, events), Run(fnv, site, hour, all);
    assert after == Attempt(fnv, site, Some(hour), before, now, create, save);
    if create == Ok && save != Rejected {
      NextSlotIsTheOne(fnv, site, hour, now, NextSlot(fnv, site, hour, now));
      WholeDays(fnv, site, hour, before.value, after.value);
      assert !IsDue(after, now);
      assert !StaysDue(after, now);
    }
  }

  // One Backup for one slot

  ghost function At(fnv: string -> nat, site: string, hour: int, events: seq<Event>, i: nat): Option<int>
    requires i <= |events|
  {
    Run(fnv, site, hour, events[..i])
  }

  /** Event `i` creates a Backup for the time that is stored then. */
  ghost predicate Makes(fnv: string -> nat, site: string, hour: int, events: seq<Event>, i: nat) {
    && i < |events| && events[i].ScheduledBackup? && events[i].create != Rejected
    && IsDue(At(fnv, site, hour, events, i), events[i].now)
  }

  ghost predicate Moves(fnv: string -> nat, site: string, hour: int, events: seq<Event>, i: nat) {
    Makes(fnv, site, hour, events, i) && IsRecorded(events[i])
  }

  lemma MovesAlone(fnv: string -> nat, site: string, hour: int, events: seq<Event>, i: nat)
    requires IsHour(hour) && i < |events| && At(fnv, site, hour, events, i).Some?
    ensures var before, after := At(fnv, site, hour, events, i), At(fnv, site, hour, events, i + 1);
            && after.Some?
            && if Moves(fnv, site, hour, events, i) then after.value > before.value else after == before
  {
    assert events[..i + 1][..i] == events[..i];
    RunStaysInSlot(fnv, site, hour, events[..i]);
    var e := events[i];
    NextSlotIsTheOne(fnv, site, hour, e.now, NextSlot(fnv, site, hour, e.now));
    hide HourOf;
  }

  lemma {:induction false} MovesForward(fnv: string -> nat, site: string, hour: int, events: seq<Event>, i: nat,
                                        j: nat)
    requires IsHour(hour) && i <= j <= |events| && At(fnv, site, hour, events, i).Some?
    ensures var before, after := At(fnv, site, hour, events, i), At(fnv, site, hour, events, j);
            && after.Some? && after.value >= before.value
            && (after == before <==> forall k: nat | i <= k < j :: !Moves(fnv, site, hour, events, k))
    decreases j
  {
    hide At, Moves;
    if i < j {
      MovesForward(fnv, site, hour, events, i, j - 1);
      MovesAlone(fnv, site, hour, events, j - 1);
    }
  }

  /** Two Backups of a run are for the same slot exactly when no creation from the first up to the second
      is both reported as done and saved. */
  lemma SameSlotExactly(fnv: string -> nat, site: string, hour: int, events: seq<Event>, i: nat, j: nat)
    requires IsHour(hour) && i < j && Makes(fnv, site, hour, events, i) && Makes(fnv, site, hour, events, j)
    ensures At(fnv, site, hour, events, i) == At(fnv, site, hour, events, j) <==>
            forall k: nat | i <= k < j && Makes(fnv, site, hour, events, k) :: !IsRecorded(events[k])
  {
    hide At, IsRecorded;
    MovesForward(fnv, site, hour, events, i, j);
    if forall k: nat | i <= k < j && Makes(fnv, site, hour, events, k) :: !IsRecorded(events[k]) {
      forall k: nat | i <= k < j ensures !Moves(fnv, site, hour, events, k) {
      }
    } else {
      var k: nat :| i <= k < j && Makes(fnv, site, hour, events, k) && IsRecorded(events[k]);
      assert Moves(fnv, site, hour, events, k);
    }
  }

  ghost predicate OncePerSlot(fnv: string -> nat, site: string, hour: int, events: seq<Event>) {
    forall i: nat, j: nat | i < j && Makes(fnv, site, hour, events, i) && Makes(fnv, site, hour, events, j) ::
      At(fnv, site, hour, events, i) != At(fnv, site, hour, events, j)
  }

  /** The next creation after event `i`. */
  lemma NextMake(fnv: string -> nat, site: string, hour: int, events: seq<Event>, i: nat, j: nat)
    returns (n: nat)
    requires i < j && Makes(fnv, site, hour, events, j)
    ensures i < n <= j && Makes(fnv, site, hour, events, n)
    ensures forall k: nat | i < k < n :: !Makes(fnv, site, hour, events, k)
  {
    n := i + 1;
    while !Makes(fnv, site, hour, events, n)
      invariant i < n <= j && forall k: nat | i < k < n :: !Makes(fnv, site, hour, events, k)
      decreases j - n
    {
      n := n + 1;
    }
  }

  /** In every run with a fixed hour and name, whatever the clock does: no slot is backed up twice if and
      only if every creation that another one follows was reported as done and its new time saved. */
  lemma OncePerSlotExactly(fnv: string -> nat, site: string, hour: int, events: seq<Event>)
    requires IsHour(hour)
    ensures OncePerSlot(fnv, site, hour, events) <==>
            forall i: nat, j: nat | i < j && Makes(fnv, site, hour, events, i) && Makes(fnv, site, hour, events, j) ::
              IsRecorded(events[i])
  {
    hide At, IsRecorded;
    forall i: nat, j: nat | i < j && Makes(fnv, site, hour, events, i) && Makes(fnv, site, hour, events, j)
      ensures IsRecorded(events[i]) ==> At(fnv, site, hour, events, i) != At(fnv, site, hour, events, j)
      ensures OncePerSlot(fnv, site, hour, events) ==> IsRecorded(events[i])
    {
      SameSlotExactly(fnv, site, hour, events, i, j);
      var n := NextMake(fnv, site, hour, events, i, j);
      SameSlotExactly(fnv, site, hour, events, i, n);
    }
  }
}
