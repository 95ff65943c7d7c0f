/** What a pass of a diff handler that does not fail does to every record
    (`handlers/task/mysql_handler.go:55-93`, `handlers/job/db_init_job_handler.go:55-94`,
    `handlers/job/db_migration_job_handler.go:73-111`). */
module TaskOutcomes {
  import opened Iteration
  import opened Jobs
  import opened Names
  import opened TaskDiff
  import opened TaskConvergence

  /** No record of the site is for the service. */
  ghost predicate HasNoRecord(store: Store, site: string, s: string) {
    forall n | n in store && store[n].site == site :: store[n].service != s
  }

  /** Record `n` is for the service, and no other record of the site is. */
  ghost predicate IsTheRecord(store: Store, site: string, s: string, n: string) {
    && n in store && store[n].site == site && store[n].service == s
    && forall m | m in store && store[m].site == site && store[m].service == s :: m == n
  }

  /** A wanted service without a record gets one, under its wanted name and with the wanted content; the
      only record of a wanted service stays, with the wanted content unless it is an init job; the only
      record of any other service goes; records of other sites stay. */
  lemma PassLeavesRecords(kind: Kind, store: Store, site: string, wanted: Wanted, listing: seq<string>, o: Orders,
                          api: Api, s: string)
    requires IsPass(kind, store, site, wanted, listing, o)
    requires !EnsureCreated(kind, store, site, wanted, listing, o, api).failed
    ensures var after := EnsureCreated(kind, store, site, wanted, listing, o, api).store;
            && (s in wanted && HasNoRecord(store, site, s) ==>
                  wanted[s].name in after && after[wanted[s].name] == Record(site, s, wanted[s].content, Unset))
            && (forall n | s in wanted && IsTheRecord(store, site, s, n) ::
                  && n in after && after[n].site == site && after[n].service == s && after[n].state == store[n].state
                  && after[n].content == (if kind == InitJobs then store[n].content else wanted[s].content)
                  && (kind == Databases ==> n == wanted[s].name))
            && (forall n | s !in wanted && IsTheRecord(store, site, s, n) ::
                  n in after ==> exists t :: t in wanted && wanted[t].name == n && after[n].service == t)
            && (forall n | n in store && store[n].site != site :: n in after && after[n] == store[n])
  {
    PassFacts(kind, store, site, wanted, listing, o);
    var d, kept := DiffOf(kind, store, wanted, listing), Kept(store, wanted, listing);
    ApplyMeans(kind, store, site, wanted, d, kept, o, api);
    var after := EnsureCreated(kind, store, site, wanted, listing, o, api).store;
    hide DiffOf, Kept, Apply, IsPass, AreOrders;
    if s in wanted && HasNoRecord(store, site, s) {
      NoRecordIsCreated(kind, store, site, wanted, d, kept, s);
    }
    forall n | IsTheRecord(store, site, s, n)
      ensures s in wanted ==>
                && n in after && after[n].site == site && after[n].service == s && after[n].state == store[n].state
                && after[n].content == (if kind == InitJobs then store[n].content else wanted[s].content)
                && (kind == Databases ==> n == wanted[s].name)
      ensures s !in wanted ==> (n in after ==> exists t :: t in wanted && wanted[t].name == n && after[n].service == t)
    {
      if s in wanted {
        TheRecordStays(kind, store, site, wanted, d, kept, after, s, n);
      } else {
        TheRecordGoes(kind, store, site, wanted, d, kept, after, s, n);
      }
    }
    OthersStay(kind, store, site, wanted, d, kept, after);
  }

  lemma NoRecordIsCreated(kind: Kind, store: Store, site: string, wanted: Wanted, d: Diff, kept: map<string, string>,
                          s: string)
    requires DiffMeans(kind, store, wanted, OfSite(store, site), d, kept) && s in wanted
    requires HasNoRecord(store, site, s)
    ensures s in d.create && d.create[s] == wanted[s]
  {
  }

  lemma TheRecordStays(kind: Kind, store: Store, site: string, wanted: Wanted, d: Diff, kept: map<string, string>,
                       after: Store, s: string, n: string)
    requires DiffMeans(kind, store, wanted, OfSite(store, site), d, kept) && s in wanted
    requires forall t | t in d.update :: t in wanted
    requires IsTheRecord(store, site, s, n) && Applied(kind, store, site, wanted, d, after)
    ensures n in after && after[n].site == site && after[n].service == s && after[n].state == store[n].state
    ensures after[n].content == (if kind == InitJobs then store[n].content else wanted[s].content)
    ensures kind == Databases ==> n == wanted[s].name
  {
    assert n in OfSite(store, site) && s in kept && kept[s] == n;
    assert n !in DeletedNames(d);
    if s in d.update {
      assert d.update[s] == n;
    } else {
      assert forall t | t in d.update :: d.update[t] != n;
      assert after[n] == store[n];
    }
  }

  lemma TheRecordGoes(kind: Kind, store: Store, site: string, wanted: Wanted, d: Diff, kept: map<string, string>,
                      after: Store, s: string, n: string)
    requires DiffMeans(kind, store, wanted, OfSite(store, site), d, kept) && s !in wanted
    requires forall t | t in d.update :: t in wanted
    requires IsTheRecord(store, site, s, n) && Applied(kind, store, site, wanted, d, after)
    ensures n in after ==> exists t :: t in wanted && wanted[t].name == n && after[n].service == t
  {
    assert n in OfSite(store, site);
    assert s in d.delete && d.delete[s] == n;
    assert n in DeletedNames(d);
    if n in after {
      var t :| t in d.create && d.create[t].name == n;
      assert t in wanted && wanted[t] == d.create[t];
    }
  }

  lemma OthersStay(kind: Kind, store: Store, site: string, wanted: Wanted, d: Diff, kept: map<string, string>,
                   after: Store)
    requires DiffMeans(kind, store, wanted, OfSite(store, site), d, kept)
    requires forall t | t in d.update :: t in wanted
    requires Applied(kind, store, site, wanted, d, after)
    ensures forall n | n in store && store[n].site != site :: n in after && after[n] == store[n]
  {
    forall n | n in store && store[n].site != site ensures n in after && after[n] == store[n] {
      assert n !in OfSite(store, site);
      assert n !in DeletedNames(d);
      assert forall t | t in d.update :: d.update[t] != n;
    }
  }
}
