/** Runs of the diff handlers in which no call fails but passes may: exactly when every run reaches the
    wanted records, whatever the orders in which records are listed and maps are walked. */
module TaskRuns {
  import opened Iteration
  import opened Jobs
  import opened Names
  import opened TaskDiff
  import opened TaskConvergence

  // Passes in which no call fails

  ghost predicate IsErrorFreeStep(kind: Kind, site: string, wanted: Wanted, before: Store, p: Pass, after: Store) {
    && IsPass(kind, before, site, wanted, p.listing, p.orders) && ErrorFree(p.api)
    && after == EnsureCreated(kind, before, site, wanted, p.listing, p.orders, p.api).store
  }

  ghost predicate IsErrorFreeRun(kind: Kind, site: string, wanted: Wanted, start: Store, stores: seq<Store>,
                                 passes: seq<Pass>) {
    && |stores| == |passes| + 1 && stores[0] == start
    && forall i | 0 <= i < |passes| :: IsErrorFreeStep(kind, site, wanted, stores[i], passes[i], stores[i + 1])
  }

  ghost predicate HasRecord(store: Store, site: string, s: string) {
    exists n :: n in OfSite(store, site) && store[n].service == s
  }

  /** A record that no error-free pass gets rid of in every order: one of another site, or one of a
      service that is wanted. */
  ghost predicate IsLasting(store: Store, site: string, wanted: Wanted, n: string) {
    n in store && (store[n].site != site || store[n].service in wanted)
  }

  /** Every record of a wanted service bears its wanted name. */
  ghost predicate OwnNamesAreRight(store: Store, site: string, wanted: Wanted) {
    forall n | n in OfSite(store, site) && store[n].service in wanted :: n == wanted[store[n].service].name
  }

  /** The wanted name of a service without a record is free, or borne by a record that is to go. */
  ghost predicate MissingNamesAreFree(store: Store, site: string, wanted: Wanted) {
    forall s | s in wanted && !HasRecord(store, site, s) :: !IsLasting(store, site, wanted, wanted[s].name)
  }

  ghost predicate NamesAreRight(kind: Kind, store: Store, site: string, wanted: Wanted) {
    && (kind == Databases ==> OwnNamesAreRight(store, site, wanted))
    && MissingNamesAreFree(store, site, wanted)
  }

  // What is left after a pass that may have stopped at a creation or an update

  /** Records are deleted as the difference says; the others keep their site and service; new ones have
      the name of a service that was missing. */
  ghost predicate IsLeft(store: Store, site: string, d: Diff, after: Store) {
    && (forall n | n in store && n !in DeletedNames(d) ::
          n in after && after[n].site == store[n].site && after[n].service == store[n].service)
    && (forall n | n in after && !(n in store && n !in DeletedNames(d)) ::
          && after[n].site == site && after[n].service in d.create && d.create[after[n].service].name == n)
  }

  ghost predicate HasGrown(before: Store, site: string, d: Diff, after: Store) {
    && (forall n | n in before ::
        n in after && after[n].site == before[n].site
        && after[n].service == before[n].service)
    && (forall n | n in after && n !in before ::
          && after[n].site == site && after[n].service in d.create && d.create[after[n].service].name == n)
  }

  lemma {:induction false} CreatesGrow(store: Store, site: string, d: Diff, order: seq<string>, api: Api)
    requires forall s | s in order :: s in d.create
    ensures HasGrown(store, site, d, CreateAll(store, site, d, order, api).0)
  {
    if order != [] {
      CreatesGrow(store, site, d, order[..|order| - 1], api);
    }
  }

  lemma {:induction false} UpdatesKeepSites(kind: Kind, store: Store, site: string, wanted: Wanted, d: Diff,
                                            order: seq<string>, api: Api)
    requires forall s | s in order :: s in d.update && s in wanted
    ensures var after := UpdateAll(kind, store, wanted, d, order, api).0;
            after.Keys == store.Keys && forall n | n in store ::
                after[n].site == store[n].site
                && after[n].service == store[n].service
  {
    if order != [] {
      UpdatesKeepSites(kind, store, site, wanted, d, order[..|order| - 1], api);
    }
  }

  lemma PassLeaves(kind: Kind, site: string, wanted: Wanted, store: Store, p: Pass, after: Store)
    requires IsErrorFreeStep(kind, site, wanted, store, p, after)
    ensures IsLeft(store, site, DiffOf(kind, store, wanted, p.listing), after)
  {
    hide DiffOf, Kept, DiffMeans, DeleteAll, CreateAll, UpdateAll, OfSite, HasGrown, AreOrders, DeletedNames;
    var d := DiffOf(kind, store, wanted, p.listing);
    var o, api := p.orders, p.api;
    PassFacts(kind, store, site, wanted, p.listing, o);
    DeletesSucceed(store, d, o.delete, api);
    DeletedIs(kind, store, site, wanted, p.listing, o, api);
    var deleted := DeleteAll(store, d, o.delete, api).0;
    hide IsPass;
    var updated := UpdateAll(kind, deleted, wanted, d, o.update, api).0;
    var created := CreateAll(deleted, site, d, o.create, api).0;
    UpdatesKeepSites(kind, deleted, site, wanted, d, o.update, api);
    CreatesGrow(updated, site, d, o.create, api);
    CreatesGrow(deleted, site, d, o.create, api);
    UpdatesKeepSites(kind, created, site, wanted, d, o.update, api);
    GrownIsLeft(store, site, d, deleted, after);
  }

  lemma DeletedIs(kind: Kind, store: Store, site: string, wanted: Wanted, listing: seq<string>, o: Orders, api: Api)
    requires IsPass(kind, store, site, wanted, listing, o) && ErrorFree(api)
    requires (forall n | n in listing :: n in store) && forall s | s in o.delete ::
        s in DiffOf(kind, store, wanted, listing).delete
    ensures var d := DiffOf(kind, store, wanted, listing);
            DeleteAll(store, d, o.delete, api).0 == store - DeletedNames(d)
  {
    var d := DiffOf(kind, store, wanted, listing);
    hide DiffOf;
    DeletesSucceed(store, d, o.delete, api);
    DeleteAllMeans(store, d, o.delete, api);
    assert (set s | s in o.delete :: d.delete[s]) == DeletedNames(d);
  }

  lemma GrownIsLeft(store: Store, site: string, d: Diff, deleted: Store, after: Store)
    requires deleted == store - DeletedNames(d)
    ensures HasGrown(deleted, site, d, after) ==> IsLeft(store, site, d, after)
    ensures forall mid: Store | HasGrown(deleted, site, d, mid) && mid.Keys == after.Keys
              && (forall n | n in mid :: after[n].site == mid[n].site && after[n].service == mid[n].service) ::
                  IsLeft(store, site, d, after)
    ensures forall mid: Store | mid.Keys == deleted.Keys
        && (forall n | n in deleted :: mid[n].site == deleted[n].site && mid[n].service == deleted[n].service)
              && HasGrown(mid, site, d, after) :: IsLeft(store, site, d, after)
    ensures after == deleted ==> IsLeft(store, site, d, after)
  {
    hide DeletedNames;
  }

  // The surplus shrinks even in a pass that fails

  ghost function NewNames(store: Store, d: Diff, after: Store): set<string> {
    after.Keys - (store.Keys - DeletedNames(d))
  }

  ghost function NewServices(store: Store, d: Diff, after: Store): map<string, string> {
    map n | n in NewNames(store, d, after) :: after[n].service
  }

  lemma DeletedSize(kind: Kind, store: Store, site: string, wanted: Wanted, d: Diff, kept: map<string, string>)
    requires DiffMeans(kind, store, wanted, OfSite(store, site), d, kept)
    ensures |DeletedNames(d)| == |d.delete.Keys| && DeletedNames(d) <= OfSite(store, site)
  {
    ImageSize(d.delete);
    assert DeletedNames(d) == Image(d.delete);
    assert IsInjective(d.delete);
    assert |d.delete| == |d.delete.Keys|;
  }

  lemma OwnLeftAt(store: Store, site: string, d: Diff, after: Store, n: string)
    requires IsLeft(store, site, d, after)
    ensures n in OfSite(after, site) <==> n in OfSite(store, site) - DeletedNames(d) || n in NewNames(store, d, after)
    ensures n in OfSite(store, site) - DeletedNames(d) ==> n !in NewNames(store, d, after)
  {
    hide DeletedNames, OfSite;
    if n in store && n !in DeletedNames(d) {
      assert n in after;
    }
  }

  lemma OwnLeft(store: Store, site: string, d: Diff, after: Store)
    requires IsLeft(store, site, d, after)
    ensures OfSite(after, site) == OfSite(store, site) - DeletedNames(d) + NewNames(store, d, after)
    ensures (OfSite(store, site) - DeletedNames(d)) !! NewNames(store, d, after)
  {
    hide *;
    var own, gone, added, own' := OfSite(store, site), DeletedNames(d), NewNames(store, d, after), OfSite(after, site);
    forall n ensures n in own' <==> n in own - gone || n in added {
      OwnLeftAt(store, site, d, after, n);
    }
    forall n | n in own - gone ensures n !in added {
      OwnLeftAt(store, site, d, after, n);
    }
  }

  lemma NewServicesDiffer(store: Store, site: string, d: Diff, after: Store)
    requires IsLeft(store, site, d, after)
    ensures |NewNames(store, d, after)| == |Image(NewServices(store, d, after))|
  {
    hide DeletedNames;
    var f := NewServices(store, d, after);
    ImageSize(f);
    assert IsInjective(f);
    assert f.Keys == NewNames(store, d, after) && |f| == |f.Keys|;
  }

  lemma CoveredLeft(kind: Kind, store: Store, site: string, wanted: Wanted, d: Diff, kept: map<string, string>,
                    after: Store)
    requires DiffMeans(kind, store, wanted, OfSite(store, site), d, kept) && IsLeft(store, site, d, after)
    ensures Covered(after, site, wanted) == Covered(store, site, wanted) + Image(NewServices(store, d, after))
    ensures Covered(store, site, wanted) !! Image(NewServices(store, d, after))
  {
    var own, own', f := OfSite(store, site), OfSite(after, site), NewServices(store, d, after);
    KeptStays(kind, store, site, wanted, d, kept);
    KeptIsCovered(kind, store, site, wanted, d, kept);
    CreatedExactly(kind, store, wanted, own, d, kept);
    hide DiffMeans, DeletedNames;
    forall s | s in kept ensures s in Covered(after, site, wanted) {
      assert kept[s] in own' && after[kept[s]].service == s;
    }
    forall s | s in Image(f) ensures s in Covered(after, site, wanted) && s in d.create {
      var n :| n in f && f[n] == s;
      assert n in own' && after[n].service == s;
    }
    forall s | s in Covered(after, site, wanted) ensures s in kept.Keys + Image(f) {
      var n :| n in own' && after[n].service == s;
      if n in f {
        assert f[n] == s;
      } else {
        assert n in own && store[n].service == s;
        assert s in Covered(store, site, wanted);
      }
    }
  }

  lemma SurplusLeft(kind: Kind, store: Store, site: string, wanted: Wanted, d: Diff, kept: map<string, string>,
                    after: Store)
    requires DiffMeans(kind, store, wanted, OfSite(store, site), d, kept) && IsLeft(store, site, d, after)
    ensures Surplus(after, site, wanted) == Surplus(store, site, wanted) - |d.delete.Keys|
  {
    hide DiffMeans, IsLeft, OfSite, Covered, DeletedNames, NewNames, NewServices, Image;
    OwnLeft(store, site, d, after);
    NewServicesDiffer(store, site, d, after);
    CoveredLeft(kind, store, site, wanted, d, kept, after);
    DeletedSize(kind, store, site, wanted, d, kept);
    var own, gone, added := OfSite(store, site), DeletedNames(d), NewNames(store, d, after);
    assert |own - gone| == |own| - |gone|;
    assert |(own - gone) + added| == |own - gone| + |added|;
    var covered, more := Covered(store, site, wanted), Image(NewServices(store, d, after));
    assert |covered + more| == |covered| + |more|;
  }

  // Right names stay right, and lead to the wanted records

  lemma NamesStayRight(kind: Kind, store: Store, site: string, wanted: Wanted, d: Diff, kept: map<string, string>,
                       after: Store)
    requires DiffMeans(kind, store, wanted, OfSite(store, site), d, kept) && IsLeft(store, site, d, after)
    requires DistinctNames(wanted) && NamesAreRight(kind, store, site, wanted)
    ensures NamesAreRight(kind, after, site, wanted)
  {
    KeptStays(kind, store, site, wanted, d, kept);
    CreatedAsWanted(kind, store, site, wanted, d, kept);
    hide DiffMeans, DeletedNames;
    forall s | s in wanted && HasRecord(store, site, s) ensures HasRecord(after, site, s) {
      assert kept[s] in OfSite(after, site) && after[kept[s]].service == s;
    }
    forall n | n in after && !(n in store && n !in DeletedNames(d)) ensures HasRecord(after, site, after[n].service) {
      assert n in OfSite(after, site);
    }
    forall s | s in wanted && !HasRecord(after, site, s)
      ensures !IsLasting(after, site, wanted, wanted[s].name)
    {
      assert !HasRecord(store, site, s);
      var n := wanted[s].name;
      assert n in after ==> n in store && n !in DeletedNames(d);
    }
  }

  lemma CreatedAsWanted(kind: Kind, store: Store, site: string, wanted: Wanted, d: Diff, kept: map<string, string>)
    requires DiffMeans(kind, store, wanted, OfSite(store, site), d, kept)
    ensures forall s | s in d.create :: s in wanted && d.create[s] == wanted[s] && !HasRecord(store, site, s)
    ensures forall s | s in wanted && HasRecord(store, site, s) :: s in kept
  {
    hide Matches;
  }

  /** With the right names, a pass that has nothing to delete does not fail. */
  lemma NothingToDeleteSucceeds(kind: Kind, site: string, wanted: Wanted, store: Store, p: Pass)
    requires IsPass(kind, store, site, wanted, p.listing, p.orders) && ErrorFree(p.api) && DistinctNames(wanted)
    requires NamesAreRight(kind, store, site, wanted)
    requires (forall n | n in p.listing :: n in store) && DiffOf(kind, store, wanted, p.listing).delete == map[]
    ensures !EnsureCreated(kind, store, site, wanted, p.listing, p.orders, p.api).failed
  {
    var d, kept := DiffOf(kind, store, wanted, p.listing), Kept(store, wanted, p.listing);
    hide DiffOf, Kept, EnsureCreated;
    PassFacts(kind, store, site, wanted, p.listing, p.orders);
    FailsExactly(kind, store, site, wanted, p.listing, p.orders, p.api);
    CreatedAsWanted(kind, store, site, wanted, d, kept);
    UnwantedIsDeleted(kind, store, site, wanted, d, kept);
    UpdatedIsKept(kind, store, site, wanted, d, kept);
    hide DiffMeans, IsPass;
    forall s | s in d.create && d.create[s].name in store ensures d.create[s].name in DeletedNames(d) {
      assert !IsLasting(store, site, wanted, wanted[s].name);
    }
  }

  lemma UnwantedIsDeleted(kind: Kind, store: Store, site: string, wanted: Wanted, d: Diff, kept: map<string, string>)
    requires DiffMeans(kind, store, wanted, OfSite(store, site), d, kept)
    ensures forall n | n in OfSite(store, site) && store[n].service !in wanted :: store[n].service in d.delete
  {
    hide Matches;
  }

  lemma UpdatedIsKept(kind: Kind, store: Store, site: string, wanted: Wanted, d: Diff, kept: map<string, string>)
    requires DiffMeans(kind, store, wanted, OfSite(store, site), d, kept)
    ensures forall s | s in d.update ::
        s in wanted && d.update[s] in OfSite(store, site)
        && store[d.update[s]].service == s
  {
    hide Matches;
  }

  /** One step towards the wanted records. */
  lemma StepApproaches(kind: Kind, site: string, wanted: Wanted, store: Store, p: Pass, after: Store)
    requires IsErrorFreeStep(kind, site, wanted, store, p, after) && DistinctNames(wanted)
        && NamesAreRight(kind, store, site, wanted)
    ensures NamesAreRight(kind, after, site, wanted) && 0 <= Surplus(after, site, wanted)
    ensures Surplus(after, site, wanted) < Surplus(store, site, wanted) || Corresponds(kind, after, site, wanted)
    ensures Corresponds(kind, store, site, wanted) ==> Corresponds(kind, after, site, wanted)
  {
    hide DiffOf, Kept, DiffMeans, EnsureCreated, OfSite, Surplus, Corresponds, NamesAreRight, IsLeft, AllMatch;
    PassFacts(kind, store, site, wanted, p.listing, p.orders);
    PassLeaves(kind, site, wanted, store, p, after);
    var d, kept := DiffOf(kind, store, wanted, p.listing), Kept(store, wanted, p.listing);
    NamesStayRight(kind, store, site, wanted, d, kept, after);
    SurplusLeft(kind, store, site, wanted, d, kept, after);
    SurplusIsNatural(after, site, wanted);
    ListsAll(kind, store, site, wanted, p.listing, p.orders);
    CompleteExactly(kind, store, site, wanted, p.listing);
    if d.delete == map[] {
      NothingToDeleteSucceeds(kind, site, wanted, store, p);
      PassMeans(kind, store, site, wanted, p.listing, p.orders, p.api);
    } else {
      assert d.delete.Keys != {};
    }
  }

  lemma ListsAll(kind: Kind, store: Store, site: string, wanted: Wanted, listing: seq<string>, o: Orders)
    requires IsPass(kind, store, site, wanted, listing, o)
    ensures IsOrderOf(listing, OfSite(store, site))
  {
  }

  lemma TailOfRun(kind: Kind, site: string, wanted: Wanted, start: Store, stores: seq<Store>, passes: seq<Pass>)
    requires IsErrorFreeRun(kind, site, wanted, start, stores, passes) && passes != []
    ensures IsErrorFreeStep(kind, site, wanted, start, passes[0], stores[1])
    ensures IsErrorFreeRun(kind, site, wanted, stores[1], stores[1..], passes[1..])
  {
    hide IsErrorFreeStep;
    forall i | 0 <= i < |passes[1..]| ensures IsErrorFreeStep(kind, site, wanted, stores[1..][i], passes[1..][i],
        stores[1..][i + 1]) {
      assert IsErrorFreeStep(kind, site, wanted, stores[i + 1], passes[i + 1], stores[i + 2]);
    }
  }

  lemma {:induction false} RightNamesConverge(kind: Kind, site: string, wanted: Wanted, start: Store,
                                              stores: seq<Store>, passes: seq<Pass>)
    requires IsErrorFreeRun(kind, site, wanted, start, stores, passes) && DistinctNames(wanted)
        && NamesAreRight(kind, start, site, wanted)
    requires |passes| > Surplus(start, site, wanted) || Corresponds(kind, start, site, wanted)
    ensures Corresponds(kind, stores[|passes|], site, wanted)
    decreases |passes|
  {
    hide IsErrorFreeStep, Surplus, Corresponds, NamesAreRight, DistinctNames;
    if passes == [] {
      SurplusIsNatural(start, site, wanted);
    } else {
      TailOfRun(kind, site, wanted, start, stores, passes);
      StepApproaches(kind, site, wanted, start, passes[0], stores[1]);
      hide IsErrorFreeRun;
      RightNamesConverge(kind, site, wanted, stores[1], stores[1..], passes[1..]);
    }
  }

  // Wrong names block some run for good

  /** Record `n` blocks service `s`: it holds the service under a wrong name, or the name of a service
      that has no record. */
  ghost predicate Blocks(kind: Kind, store: Store, site: string, wanted: Wanted, n: string, s: string) {
    && IsLasting(store, site, wanted, n) && s in wanted
    && if kind == Databases && store[n].site == site && store[n].service == s then n != wanted[s].name
       else wanted[s].name == n && !HasRecord(store, site, s)
  }

  lemma BlockedIsIncomplete(kind: Kind, store: Store, site: string, wanted: Wanted, n: string, s: string)
    requires Blocks(kind, store, site, wanted, n, s)
    ensures !Corresponds(kind, store, site, wanted)
  {
    if kind == Databases && store[n].site == site && store[n].service == s {
      assert n in OfSite(store, site) && !Matches(kind, n, store[n], wanted[s]);
    }
  }

  lemma WrongNamesBlock(kind: Kind, store: Store, site: string, wanted: Wanted) returns (n: string, s: string)
    requires !NamesAreRight(kind, store, site, wanted)
    ensures Blocks(kind, store, site, wanted, n, s)
  {
    if kind == Databases && !OwnNamesAreRight(store, site, wanted) {
      n :| n in OfSite(store, site) && store[n].service in wanted && n != wanted[store[n].service].name;
      s := store[n].service;
    } else {
      s :| s in wanted && !HasRecord(store, site, s) && IsLasting(store, site, wanted, wanted[s].name);
      n := wanted[s].name;
      assert store[n].site == site ==> n in OfSite(store, site);
    }
  }

  lemma {:induction false} FirstIsKept(store: Store, wanted: Wanted, listing: seq<string>)
    requires listing != [] && (forall n | n in listing :: n in store) && store[listing[0]].service in wanted
    ensures IsKept(Kept(store, wanted, listing), store[listing[0]].service, listing[0])
  {
    if |listing| > 1 {
      FirstIsKept(store, wanted, listing[..|listing| - 1]);
    } else {
      assert listing[..0] == [];
    }
  }

  /** The record stays where it is not the site's, or is the site's and listed first. */
  lemma BlockStays(kind: Kind, site: string, wanted: Wanted, store: Store, p: Pass, after: Store, n: string, s: string)
    requires IsErrorFreeStep(kind, site, wanted, store, p, after) && Blocks(kind, store, site, wanted, n, s)
    requires store[n].site == site ==> p.listing != [] && p.listing[0] == n
    ensures Blocks(kind, after, site, wanted, n, s) && after[n].site == store[n].site
  {
    PassFacts(kind, store, site, wanted, p.listing, p.orders);
    PassLeaves(kind, site, wanted, store, p, after);
    var d, kept := DiffOf(kind, store, wanted, p.listing), Kept(store, wanted, p.listing);
    if store[n].site == site {
      FirstIsKept(store, wanted, p.listing);
    }
    hide DiffOf, Kept, EnsureCreated, IsErrorFreeStep;
    NotDeleted(kind, store, site, wanted, d, kept, n);
    CreatedAsWanted(kind, store, site, wanted, d, kept);
    hide DiffMeans, DeletedNames;
    assert n in after && after[n].site == store[n].site && after[n].service == store[n].service;
    if !HasRecord(store, site, s) && wanted[s].name == n {
      forall m | m in OfSite(after, site) ensures after[m].service != s {
        assert m in store && m !in DeletedNames(d) ==> m in OfSite(store, site);
      }
    }
  }

  lemma NotDeleted(kind: Kind, store: Store, site: string, wanted: Wanted, d: Diff, kept: map<string, string>,
                   n: string)
    requires DiffMeans(kind, store, wanted, OfSite(store, site), d, kept) && n in store
    requires store[n].site != site || IsKept(kept, store[n].service, n)
    ensures n !in DeletedNames(d)
  {
    hide Matches;
  }

  function AllOk(): (api: Api)
    ensures ErrorFree(api)
  {
    Api(true, s => Ok, s => Ok, s => Ok)
  }

  /** For every length there is a run without a failing call that keeps the blocking record. */
  lemma {:induction false} BlockedRun(kind: Kind, site: string, wanted: Wanted, store: Store, n: string, s: string,
                                      length: nat)
    returns (stores: seq<Store>, passes: seq<Pass>)
    requires Blocks(kind, store, site, wanted, n, s)
    ensures IsErrorFreeRun(kind, site, wanted, store, stores, passes) && |passes| == length
    ensures Blocks(kind, stores[length], site, wanted, n, s)
    decreases length
  {
    if length == 0 {
      stores, passes := [store], [];
    } else {
      var p, after := BlockedStep(kind, site, wanted, store, n, s);
      hide Blocks, IsErrorFreeStep;
      var later, rest := BlockedRun(kind, site, wanted, after, n, s, length - 1);
      stores, passes := [store] + later, [p] + rest;
      forall i | 0 <= i < |passes| ensures IsErrorFreeStep(kind, site, wanted, stores[i], passes[i], stores[i + 1]) {
        if i > 0 {
          assert IsErrorFreeStep(kind, site, wanted, later[i - 1], rest[i - 1], later[i]);
        }
      }
    }
  }

  lemma BlockedStep(kind: Kind, site: string, wanted: Wanted, store: Store, n: string, s: string)
    returns (p: Pass, after: Store)
    requires Blocks(kind, store, site, wanted, n, s)
    ensures IsErrorFreeStep(kind, site, wanted, store, p, after) && Blocks(kind, after, site, wanted, n, s)
  {
    var own := OfSite(store, site);
    var listing: seq<string>;
    if store[n].site == site {
      listing := OrderFrom(own, n);
    } else {
      listing := SomeOrder(own);
    }
    assert forall m | m in listing :: m in own;
    var d := DiffOf(kind, store, wanted, listing);
    UpdatesAreWanted(kind, store, wanted, listing);
    var deletes := SomeOrder(d.delete.Keys);
    var creates := SomeOrder(d.create.Keys);
    var updates := SomeOrder(d.update.Keys);
    p := Pass(listing, Orders(deletes, creates, updates), AllOk());
    hide DiffOf, EnsureCreated, Blocks, ErrorFree;
    after := EnsureCreated(kind, store, site, wanted, listing, p.orders, p.api).store;
    BlockStays(kind, site, wanted, store, p, after, n, s);
  }

  /** Every run without a failing call that is longer than the surplus ends with the wanted records. */
  ghost predicate AlwaysConverges(kind: Kind, site: string, wanted: Wanted, start: Store) {
    forall stores, passes | IsErrorFreeRun(kind, site, wanted, start, stores, passes)
        && |passes| > Surplus(start, site, wanted) ::
      Corresponds(kind, stores[|passes|], site, wanted)
  }

  /** Convergence, exactly.  For all orders of listing and walking, and with passes that fail on the way:
      the handler always reaches the wanted records if and only if, in the store it starts from, every
      database task of a wanted service bears the wanted name, and no wanted name of a service without a
      record is borne by a record of another site or of a wanted service.  Otherwise there are orders
      for which no number of passes is enough. */
  lemma ConvergesExactly(kind: Kind, site: string, wanted: Wanted, start: Store)
    requires DistinctNames(wanted)
    ensures AlwaysConverges(kind, site, wanted, start) <==> NamesAreRight(kind, start, site, wanted)
  {
    hide IsErrorFreeStep, Surplus, Corresponds, NamesAreRight, DistinctNames, Blocks;
    SurplusIsNatural(start, site, wanted);
    if NamesAreRight(kind, start, site, wanted) {
      forall stores, passes | IsErrorFreeRun(kind, site, wanted, start, stores, passes)
          && |passes| > Surplus(start, site, wanted)
        ensures Corresponds(kind, stores[|passes|], site, wanted)
      {
        RightNamesConverge(kind, site, wanted, start, stores, passes);
      }
    } else {
      var n, s := WrongNamesBlock(kind, start, site, wanted);
      var length := Surplus(start, site, wanted) + 1;
      var stores, passes := BlockedRun(kind, site, wanted, start, n, s, length);
      BlockedIsIncomplete(kind, stores[length], site, wanted, n, s);
    }
  }

  /** And not only for a time: for every number of passes there is such a run. */
  lemma OtherwiseNever(kind: Kind, site: string, wanted: Wanted, start: Store, length: nat)
    requires !NamesAreRight(kind, start, site, wanted)
    ensures exists stores, passes :: IsErrorFreeRun(kind, site, wanted, start, stores, passes) && |passes| == length
              && !Corresponds(kind, stores[length], site, wanted)
  {
    hide IsErrorFreeStep, Corresponds, NamesAreRight, Blocks;
    var n, s := WrongNamesBlock(kind, start, site, wanted);
    var stores, passes := BlockedRun(kind, site, wanted, start, n, s, length);
    BlockedIsIncomplete(kind, stores[length], site, wanted, n, s);
  }
}
