/** What the difference computed by the handlers means, and that repeated passes reach it. */
module TaskConvergence {
  import opened Iteration
  import opened Jobs
  import opened Names
  import opened TaskDiff

  // The difference, without its loop

  /** The first record listed for each wanted service. */
  ghost function Kept(store: Store, wanted: Wanted, listing: seq<string>): map<string, string>
    requires forall n | n in listing :: n in store
  {
    if listing == [] then map[]
    else
      var kept, name := Kept(store, wanted, listing[..|listing| - 1]), listing[|listing| - 1];
      var s := store[name].service;
      if s in wanted && s !in kept then kept[s := name] else kept
  }

  ghost predicate IsKept(kept: map<string, string>, s: string, name: string) {
    s in kept && kept[s] == name
  }

  ghost predicate IsMismatched(kind: Kind, store: Store, wanted: Wanted, kept: map<string, string>, s: string) {
    s in kept && s in wanted && kept[s] in store && !Matches(kind, kept[s], store[kept[s]], wanted[s])
  }

  /** A service is created when no record is kept for it, and updated when the kept one does not match. */
  ghost predicate KeptMeans(kind: Kind, store: Store, wanted: Wanted, seen: set<string>, d: Diff,
                            kept: map<string, string>)
    requires forall n | n in seen :: n in store
  {
    && (forall s | s in kept :: s in wanted && kept[s] in seen && store[kept[s]].service == s)
    && (forall s :: s in d.create <==> s in wanted && s !in kept)
    && (forall s | s in d.create :: d.create[s] == wanted[s])
    && (forall s :: s in d.update <==> IsMismatched(kind, store, wanted, kept, s))
    && (forall s | s in d.update :: d.update[s] == kept[s])
    && (forall n | n in seen && store[n].service in wanted :: store[n].service in kept)
  }

  /** A service is in the deletion map when it has a record that is not kept. */
  ghost predicate DeleteMeans(store: Store, seen: set<string>, d: Diff, kept: map<string, string>)
    requires forall n | n in seen :: n in store
  {
    && (forall s | s in d.delete ::
        d.delete[s] in seen && store[d.delete[s]].service == s
        && !IsKept(kept, s, d.delete[s]))
    && (forall n | n in seen :: IsKept(kept, store[n].service, n) || store[n].service in d.delete)
  }

  ghost predicate DiffMeans(kind: Kind, store: Store, wanted: Wanted, seen: set<string>, d: Diff,
                            kept: map<string, string>)
    requires forall n | n in seen :: n in store
  {
    KeptMeans(kind, store, wanted, seen, d, kept) && DeleteMeans(store, seen, d, kept)
  }

  lemma DiffStepMeans(kind: Kind, store: Store, wanted: Wanted, seen: set<string>, d: Diff, kept: map<string, string>,
                      name: string)
    requires forall n | n in seen :: n in store
    requires DiffMeans(kind, store, wanted, seen, d, kept) && name in store && name !in seen
    ensures var s := store[name].service;
            DiffMeans(kind, store, wanted, seen + {name}, DiffStep(kind, store, d, name), if s in wanted
                && s !in kept then kept[s := name] else kept)
  {
    if store[name].service in d.create {
      FirstRecordMeans(kind, store, wanted, seen, d, kept, name);
    } else {
      OtherRecordMeans(kind, store, wanted, seen, d, kept, name);
    }
    hide DiffMeans, Matches;
    assert store[name].service in d.create <==> store[name].service in wanted && store[name].service !in kept by {
      CreatedExactly(kind, store, wanted, seen, d, kept);
    }
  }

  lemma CreatedExactly(kind: Kind, store: Store, wanted: Wanted, seen: set<string>, d: Diff, kept: map<string, string>)
    requires (forall n | n in seen :: n in store) && DiffMeans(kind, store, wanted, seen, d, kept)
    ensures forall s :: s in d.create <==> s in wanted && s !in kept
  {
  }

  lemma FirstRecordMeans(kind: Kind, store: Store, wanted: Wanted, seen: set<string>, d: Diff,
                         kept: map<string, string>, name: string)
    requires forall n | n in seen :: n in store
    requires DiffMeans(kind, store, wanted, seen, d, kept) && name in store && name !in seen
        && store[name].service in d.create
    ensures DiffMeans(kind, store, wanted, seen + {name}, DiffStep(kind, store, d, name),
        kept[store[name].service := name])
  {
    FirstIsKept(kind, store, wanted, seen, d, kept, name);
    FirstIsNotDeleted(kind, store, wanted, seen, d, kept, name);
    hide KeptMeans, DeleteMeans, Matches;
  }

  lemma FirstIsKept(kind: Kind, store: Store, wanted: Wanted, seen: set<string>, d: Diff, kept: map<string, string>,
                    name: string)
    requires forall n | n in seen :: n in store
    requires KeptMeans(kind, store, wanted, seen, d, kept) && name in store && name !in seen
        && store[name].service in d.create
    ensures KeptMeans(kind, store, wanted, seen + {name}, DiffStep(kind, store, d, name),
        kept[store[name].service := name])
  {
    hide Matches;
    var s, kept', d' := store[name].service, kept[store[name].service := name], DiffStep(kind, store, d, name);
    assert s in wanted && s !in kept && s !in d.update && d.create[s] == wanted[s];
    forall t | t != s ensures IsMismatched(kind, store, wanted, kept', t)
        <==> IsMismatched(kind, store, wanted, kept, t) {
    }
    assert IsMismatched(kind, store, wanted, kept', s) <==> s in d'.update;
    hide IsMismatched;
  }

  lemma FirstIsNotDeleted(kind: Kind, store: Store, wanted: Wanted, seen: set<string>, d: Diff,
                          kept: map<string, string>, name: string)
    requires forall n | n in seen :: n in store
    requires DiffMeans(kind, store, wanted, seen, d, kept) && name in store && name !in seen
        && store[name].service in d.create
    ensures DeleteMeans(store, seen + {name}, DiffStep(kind, store, d, name), kept[store[name].service := name])
  {
    hide Matches;
    var s := store[name].service;
    assert s in wanted && s !in kept;
    assert forall n | n in seen :: store[n].service != s;
  }

  lemma OtherRecordMeans(kind: Kind, store: Store, wanted: Wanted, seen: set<string>, d: Diff,
                         kept: map<string, string>, name: string)
    requires forall n | n in seen :: n in store
    requires DiffMeans(kind, store, wanted, seen, d, kept) && name in store && name !in seen
        && store[name].service !in d.create
    ensures DiffMeans(kind, store, wanted, seen + {name}, DiffStep(kind, store, d, name), kept)
  {
    hide IsMismatched;
  }

  lemma {:induction false} DiffIsMeant(kind: Kind, store: Store, wanted: Wanted, listing: seq<string>)
    requires IsOrderOf(listing, ToSet(listing)) && forall n | n in listing :: n in store
    ensures DiffMeans(kind, store, wanted, ToSet(listing), DiffOf(kind, store, wanted, listing),
        Kept(store, wanted, listing))
  {
    if listing != [] {
      var front, name := listing[..|listing| - 1], listing[|listing| - 1];
      DiffIsMeant(kind, store, wanted, front);
      assert ToSet(listing) == ToSet(front) + {name} && name !in ToSet(front);
      DiffStepMeans(kind, store, wanted, ToSet(front), DiffOf(kind, store, wanted, front), Kept(store, wanted, front),
          name);
      hide DiffMeans, DiffStep;
    }
  }

  // Completeness

  /** The records of the site and the wanted services correspond one to one; for database tasks each
      record also is the one that is wanted. */
  ghost predicate Corresponds(kind: Kind, store: Store, site: string, wanted: Wanted) {
    var own := OfSite(store, site);
    && (forall n | n in own :: store[n].service in wanted)
    && (forall a, b | a in own && b in own && a != b :: store[a].service != store[b].service)
    && (forall s | s in wanted :: exists n :: n in own && store[n].service == s)
    && (kind == Databases ==> forall n | n in own :: Matches(kind, n, store[n], wanted[store[n].service]))
  }

  /** A pass calls the site complete exactly when that is so, whatever the order of the listing. */
  lemma CompleteExactly(kind: Kind, store: Store, site: string, wanted: Wanted, listing: seq<string>)
    requires IsOrderOf(listing, OfSite(store, site))
    ensures IsComplete(kind, DiffOf(kind, store, wanted, listing)) <==> Corresponds(kind, store, site, wanted)
  {
    var own, d, kept := OfSite(store, site), DiffOf(kind, store, wanted, listing), Kept(store, wanted, listing);
    assert ToSet(listing) == own;
    DiffIsMeant(kind, store, wanted, listing);
    hide DiffOf, Kept, OfSite;
    if IsComplete(kind, d) {
      MeantComplete(kind, store, site, wanted, d, kept);
    }
    if Corresponds(kind, store, site, wanted) {
      CorrespondsMeant(kind, store, site, wanted, d, kept);
    }
  }

  lemma MeantComplete(kind: Kind, store: Store, site: string, wanted: Wanted, d: Diff, kept: map<string, string>)
    requires DiffMeans(kind, store, wanted, OfSite(store, site), d, kept) && IsComplete(kind, d)
    ensures Corresponds(kind, store, site, wanted)
  {
    var own := OfSite(store, site);
    assert forall n | n in own :: IsKept(kept, store[n].service, n);
    forall s | s in wanted ensures exists n :: n in own && store[n].service == s {
      assert s !in d.create;
      assert kept[s] in own && store[kept[s]].service == s;
    }
  }

  lemma CorrespondsMeant(kind: Kind, store: Store, site: string, wanted: Wanted, d: Diff, kept: map<string, string>)
    requires DiffMeans(kind, store, wanted, OfSite(store, site), d, kept) && Corresponds(kind, store, site, wanted)
    ensures IsComplete(kind, d)
  {
    var own := OfSite(store, site);
    forall s ensures s !in d.create {
      if s in wanted {
        var n :| n in own && store[n].service == s;
      }
    }
    if kind == Databases {
      assert forall s :: s !in d.update;
    }
  }

  // What an error-free pass leaves

  function DeletedNames(d: Diff): set<string> { set s | s in d.delete :: d.delete[s] }

  function CreatedNames(d: Diff): set<string> { set s | s in d.create :: d.create[s].name }

  ghost predicate HasCreated(store: Store, site: string, d: Diff, services: set<string>, store': Store)
    requires forall s | s in services :: s in d.create
  {
    && (forall n :: n in store' <==> n in store || exists s :: s in services && d.create[s].name == n)
    && (forall s | s in services ::
        d.create[s].name !in store
        && store'[d.create[s].name] == Record(site, s, d.create[s].content, Unset))
    && (forall n | n in store :: store'[n] == store[n])
    && (forall a, b | a in services && b in services && a != b :: d.create[a].name != d.create[b].name)
  }

  ghost predicate HasUpdated(kind: Kind, store: Store, wanted: Wanted, d: Diff, services: set<string>, store': Store)
    requires forall s | s in services :: s in d.update && s in wanted
  {
    && store'.Keys == store.Keys
    && (forall s | s in services ::
        d.update[s] in store
        && store'[d.update[s]] == store[d.update[s]].(content := wanted[s].content)
                                    && (kind == Databases ==> d.update[s] == wanted[s].name))
    && (forall n | n in store && !exists s :: s in services && d.update[s] == n :: store'[n] == store[n])
  }

  lemma {:induction false} DeleteAllMeans(store: Store, d: Diff, order: seq<string>, api: Api)
    requires (forall s | s in order :: s in d.delete) && !DeleteAll(store, d, order, api).1
    ensures DeleteAll(store, d, order, api).0 == store - set s | s in order :: d.delete[s]
  {
    if order != [] {
      DeleteAllMeans(store, d, order[..|order| - 1], api);
      var last := order[|order| - 1];
      assert order == order[..|order| - 1] + [last];
      assert (set s | s in order :: d.delete[s]) == (set s | s in order[..|order| - 1] :: d.delete[s])
          + {d.delete[last]};
    }
  }

  lemma {:induction false} CreateAllMeans(store: Store, site: string, d: Diff, order: seq<string>, api: Api)
    requires (forall s | s in order :: s in d.create) && IsOrderOf(order, ToSet(order))
        && !CreateAll(store, site, d, order, api).1
    ensures HasCreated(store, site, d, ToSet(order), CreateAll(store, site, d, order, api).0)
  {
    if order != [] {
      var front, last := order[..|order| - 1], order[|order| - 1];
      CreateAllMeans(store, site, d, front, api);
      assert ToSet(order) == ToSet(front) + {last};
      CreateOneMeans(store, site, d, ToSet(front), CreateAll(store, site, d, front, api).0, last, api);
      hide HasCreated, CreateOne;
    }
  }

  lemma CreateOneMeans(store: Store, site: string, d: Diff, services: set<string>, mid: Store, s: string, api: Api)
    requires (forall t | t in services :: t in d.create) && s in d.create && s !in services
    requires HasCreated(store, site, d, services, mid) && !CreateOne(mid, site, d, s, api).1
    ensures HasCreated(store, site, d, services + {s}, CreateOne(mid, site, d, s, api).0)
  {
    var after := CreateOne(mid, site, d, s, api).0;
    forall n ensures n in after <==> n in store || exists t :: t in services + {s} && d.create[t].name == n {
      if n == d.create[s].name {
        assert s in services + {s} && d.create[s].name == n;
      }
      if t :| t in services && d.create[t].name == n {
        assert t in services + {s};
      }
    }
    forall t | t in services ensures d.create[t].name != d.create[s].name {
      assert d.create[t].name in mid;
    }
  }

  lemma {:induction false} UpdateAllMeans(kind: Kind, store: Store, wanted: Wanted, d: Diff, order: seq<string>,
                                          api: Api)
    requires (forall s | s in order :: s in d.update && s in wanted) && IsOrderOf(order, ToSet(order))
        && !UpdateAll(kind, store, wanted, d, order, api).1
    requires forall a, b | a in d.update && b in d.update && a != b :: d.update[a] != d.update[b]
    ensures HasUpdated(kind, store, wanted, d, ToSet(order), UpdateAll(kind, store, wanted, d, order, api).0)
  {
    if order != [] {
      var front, last := order[..|order| - 1], order[|order| - 1];
      UpdateAllMeans(kind, store, wanted, d, front, api);
      assert ToSet(order) == ToSet(front) + {last};
      UpdateOneMeans(kind, store, wanted, d, ToSet(front), UpdateAll(kind, store, wanted, d, front, api).0, last, api);
      hide HasUpdated, UpdateOne;
    }
  }

  lemma UpdateOneMeans(kind: Kind, store: Store, wanted: Wanted, d: Diff, services: set<string>, mid: Store, s: string,
                       api: Api)
    requires (forall t | t in services :: t in d.update && t in wanted) && s in d.update && s in wanted
        && s !in services
    requires forall a, b | a in d.update && b in d.update && a != b :: d.update[a] != d.update[b]
    requires HasUpdated(kind, store, wanted, d, services, mid) && !UpdateOne(kind, mid, wanted, d, s, api).1
    ensures HasUpdated(kind, store, wanted, d, services + {s}, UpdateOne(kind, mid, wanted, d, s, api).0)
  {
    var after, name := UpdateOne(kind, mid, wanted, d, s, api).0, d.update[s];
    assert forall t | t in services :: d.update[t] != name;
    assert mid[name] == store[name];
    forall n | n in store && !exists t :: t in services + {s} && d.update[t] == n ensures after[n] == store[n] {
      assert n != name by { assert s in services + {s}; }
      assert forall t | t in services :: t in services + {s} && d.update[t] != n;
    }
  }

  /** The store after a pass in which no call failed. */
  ghost predicate Applied(kind: Kind, store: Store, site: string, wanted: Wanted, d: Diff, store': Store)
    requires forall s | s in d.update :: s in wanted
  {
    && (forall n :: n in store' <==> (n in store && n !in DeletedNames(d)) || n in CreatedNames(d))
    && (forall s | s in d.create :: (d.create[s].name in store ==> d.create[s].name in DeletedNames(d))
                                    && store'[d.create[s].name] == Record(site, s, d.create[s].content, Unset))
    && (forall s | s in d.update :: d.update[s] in store && d.update[s] !in DeletedNames(d)
                                    && store'[d.update[s]] == store[d.update[s]].(content := wanted[s].content)
                                    && (kind == Databases ==> d.update[s] == wanted[s].name))
    && (forall n | n in store && n !in DeletedNames(d) ::
        store'[n].service == store[n].service
        && store'[n].site == store[n].site)
    && (forall n | n in store && n !in DeletedNames(d) && !exists s ::
        s in d.update
        && d.update[s] == n :: store'[n] == store[n])
    && (forall a, b | a in d.create && b in d.create && a != b :: d.create[a].name != d.create[b].name)
  }

  lemma ApplyMeans(kind: Kind, store: Store, site: string, wanted: Wanted, d: Diff, kept: map<string, string>,
                   o: Orders, api: Api)
    requires DiffMeans(kind, store, wanted, OfSite(store, site), d, kept) && AreOrders(o, d)
    requires forall s | s in d.update :: s in wanted
    requires !Apply(kind, store, site, wanted, d, o, api).1
    ensures Applied(kind, store, site, wanted, d, Apply(kind, store, site, wanted, d, o, api).0)
  {
    var deleted := DeleteAll(store, d, o.delete, api).0;
    DeleteAllMeans(store, d, o.delete, api);
    assert deleted == store - DeletedNames(d) by {
      assert (set s | s in o.delete :: d.delete[s]) == DeletedNames(d);
    }
    assert ToSet(o.create) == d.create.Keys && ToSet(o.update) == d.update.Keys;
    UpdatesDiffer(kind, store, site, wanted, d, kept);
    hide DiffMeans, DeleteAll, CreateAll, UpdateAll, DeletedNames, CreatedNames, Applied, HasCreated, HasUpdated,
        AreOrders;
    OrdersAreOrders(o, d);
    if kind == MigrationJobs {
      var updated := UpdateAll(kind, deleted, wanted, d, o.update, api).0;
      UpdateAllMeans(kind, deleted, wanted, d, o.update, api);
      CreateAllMeans(updated, site, d, o.create, api);
      UpdatedThenCreated(kind, store, site, wanted, d, deleted, updated, CreateAll(updated, site, d, o.create, api).0);
    } else {
      var created := CreateAll(deleted, site, d, o.create, api).0;
      CreateAllMeans(deleted, site, d, o.create, api);
      UpdateAllMeans(kind, created, wanted, d, o.update, api);
      CreatedThenUpdated(kind, store, site, wanted, d, deleted, created,
          UpdateAll(kind, created, wanted, d, o.update, api).0);
    }
  }

  lemma OrdersAreOrders(o: Orders, d: Diff)
    requires AreOrders(o, d)
    ensures IsOrderOf(o.create, ToSet(o.create)) && IsOrderOf(o.update, ToSet(o.update))
  {
  }

  /** The updated records are in the store, are not deleted and differ from each other. */
  lemma UpdatesDiffer(kind: Kind, store: Store, site: string, wanted: Wanted, d: Diff, kept: map<string, string>)
    requires DiffMeans(kind, store, wanted, OfSite(store, site), d, kept)
    ensures forall a, b | a in d.update && b in d.update && a != b :: d.update[a] != d.update[b]
    ensures forall s | s in d.update :: d.update[s] in store && d.update[s] !in DeletedNames(d)
  {
    forall s, t | s in d.update && t in d.delete ensures d.delete[t] != d.update[s] {
      assert !IsKept(kept, t, d.delete[t]);
    }
  }

  lemma CreatedThenUpdated(kind: Kind, store: Store, site: string, wanted: Wanted, d: Diff, deleted: Store,
                           created: Store, updated: Store)
    requires deleted == store - DeletedNames(d) && forall s | s in d.update :: s in wanted
    requires HasCreated(deleted, site, d, d.create.Keys, created)
        && HasUpdated(kind, created, wanted, d, d.update.Keys, updated)
    requires forall a, b | a in d.update && b in d.update && a != b :: d.update[a] != d.update[b]
    requires forall s | s in d.update :: d.update[s] in store && d.update[s] !in DeletedNames(d)
    ensures Applied(kind, store, site, wanted, d, updated)
  {
    assert forall t | t in d.update :: d.update[t] in deleted;
    forall n | n in store && n !in DeletedNames(d) ensures updated[n].service == store[n].service
        && updated[n].site == store[n].site {
      assert created[n] == store[n];
      if s :| s in d.update && d.update[s] == n {
        assert updated[n] == created[n].(content := wanted[s].content);
      }
    }
  }

  lemma UpdatedThenCreated(kind: Kind, store: Store, site: string, wanted: Wanted, d: Diff, deleted: Store,
                           updated: Store, created: Store)
    requires deleted == store - DeletedNames(d) && forall s | s in d.update :: s in wanted
    requires HasUpdated(kind, deleted, wanted, d, d.update.Keys, updated)
        && HasCreated(updated, site, d, d.create.Keys, created)
    requires forall a, b | a in d.update && b in d.update && a != b :: d.update[a] != d.update[b]
    requires forall s | s in d.update :: d.update[s] in store && d.update[s] !in DeletedNames(d)
    ensures Applied(kind, store, site, wanted, d, created)
  {
    forall n | n in store && n !in DeletedNames(d) ensures created[n].service == store[n].service
        && created[n].site == store[n].site {
      assert created[n] == updated[n];
      if s :| s in d.update && d.update[s] == n {
        assert updated[n] == deleted[n].(content := wanted[s].content);
      }
    }
  }

  // Counting

  ghost function Covered(store: Store, site: string, wanted: Wanted): set<string> {
    set n | n in OfSite(store, site) && store[n].service in wanted :: store[n].service
  }

  /** Records of the site beyond the one that each wanted service needs. */
  ghost function Surplus(store: Store, site: string, wanted: Wanted): int {
    |OfSite(store, site)| - |Covered(store, site, wanted)|
  }

  /** Wanted services without a record that matches. */
  ghost function Unmatched(kind: Kind, store: Store, site: string, wanted: Wanted): set<string> {
    set s | s in wanted && !exists n ::
        n in OfSite(store, site) && store[n].service == s
        && Matches(kind, n, store[n], wanted[s])
  }

  function Image(f: map<string, string>): set<string> { set k | k in f :: f[k] }

  ghost predicate IsInjective(f: map<string, string>) {
    forall a, b | a in f && b in f && a != b :: f[a] != f[b]
  }

  lemma {:induction false} ImageSize(f: map<string, string>)
    ensures |Image(f)| <= |f| && (IsInjective(f) ==> |Image(f)| == |f|)
  {
    if f == map[] {
      assert Image(f) == {};
    } else {
      var a :| a in f;
      var rest := f - {a};
      ImageSize(rest);
      assert Image(f) == Image(rest) + {f[a]} by {
        forall x | x in Image(f) ensures x in Image(rest) + {f[a]} {
          var k :| k in f && f[k] == x;
          assert k == a || (k in rest && rest[k] == x);
        }
      }
      assert f.Keys == rest.Keys + {a};
      assert |f| == |f.Keys| && |rest| == |rest.Keys|;
    }
  }

  lemma SurplusIsNatural(store: Store, site: string, wanted: Wanted)
    ensures Surplus(store, site, wanted) >= 0
  {
    var f := map n | n in OfSite(store, site) && store[n].service in wanted :: store[n].service;
    ImageSize(f);
    assert Covered(store, site, wanted) == Image(f) by {
      assert forall n | n in f :: n in OfSite(store, site) && store[n].service in wanted && f[n] == store[n].service;
      assert forall n | n in OfSite(store, site) && store[n].service in wanted :: n in f && f[n] == store[n].service;
    }
    assert f.Keys <= OfSite(store, site);
    var rest := OfSite(store, site) - f.Keys;
    assert OfSite(store, site) == f.Keys + rest;
  }

  lemma MapSize(d: Diff)
    requires forall a, b | a in d.delete && b in d.delete && a != b :: d.delete[a] != d.delete[b]
    requires forall a, b | a in d.create && b in d.create && a != b :: d.create[a].name != d.create[b].name
    ensures |DeletedNames(d)| == |d.delete.Keys| && |CreatedNames(d)| == |d.create.Keys|
  {
    ImageSize(d.delete);
    assert |d.delete| == |d.delete.Keys|;
    var names := map s | s in d.create :: d.create[s].name;
    ImageSize(names);
    assert names.Keys == d.create.Keys && |names| == |names.Keys|;
    assert CreatedNames(d) == Image(names);
  }

  /** The records of the site afterwards. */
  lemma OwnAfter(kind: Kind, store: Store, site: string, wanted: Wanted, d: Diff, kept: map<string, string>,
                 store': Store)
    requires DiffMeans(kind, store, wanted, OfSite(store, site), d, kept) && forall s | s in d.update :: s in wanted
    requires Applied(kind, store, site, wanted, d, store')
    ensures OfSite(store', site) == OfSite(store, site) - DeletedNames(d) + CreatedNames(d)
    ensures DeletedNames(d) <= OfSite(store, site) && (OfSite(store, site) - DeletedNames(d)) !! CreatedNames(d)
  {
    hide Matches;
    forall n ensures n in OfSite(store', site) <==> n in OfSite(store, site) - DeletedNames(d) + CreatedNames(d) {
      if n in CreatedNames(d) {
        var s :| s in d.create && d.create[s].name == n;
        assert store'[n].site == site;
      }
    }
  }

  /** What `Applied` says of services, in the terms of `OwnAfter`. */
  lemma ServicesAfter(kind: Kind, store: Store, site: string, wanted: Wanted, d: Diff, store': Store)
    requires (forall s | s in d.update :: s in wanted) && Applied(kind, store, site, wanted, d, store')
    ensures forall n | n in store && n !in DeletedNames(d) :: n in store' && store'[n].service == store[n].service
    ensures forall s | s in d.create :: d.create[s].name in store' && store'[d.create[s].name].service == s
    ensures forall n | n in CreatedNames(d) :: n in store' && store'[n].service in d.create
    ensures forall s | s in d.create :: d.create[s].name in CreatedNames(d)
  {
    hide DeletedNames;
  }

  /** The services that have a record afterwards. */
  lemma CoveredAfter(kind: Kind, store: Store, site: string, wanted: Wanted, d: Diff, kept: map<string, string>,
                     store': Store)
    requires DiffMeans(kind, store, wanted, OfSite(store, site), d, kept) && forall s | s in d.update :: s in wanted
    requires Applied(kind, store, site, wanted, d, store')
    ensures Covered(store', site, wanted) == Covered(store, site, wanted) + d.create.Keys
    ensures Covered(store, site, wanted) !! d.create.Keys
  {
    hide Applied, OfSite, DiffMeans, DeletedNames, CreatedNames;
    var own, own' := OfSite(store, site), OfSite(store', site);
    OwnAfter(kind, store, site, wanted, d, kept, store');
    ServicesAfter(kind, store, site, wanted, d, store');
    KeptStays(kind, store, site, wanted, d, kept);
    KeptIsCovered(kind, store, site, wanted, d, kept);
    forall s | s in kept ensures s in Covered(store', site, wanted) {
      assert kept[s] in own' && store'[kept[s]].service == s;
    }
    forall s | s in d.create ensures s in Covered(store', site, wanted) {
      assert d.create[s].name in own' && store'[d.create[s].name].service == s;
    }
    forall s | s in Covered(store', site, wanted) ensures s in kept.Keys + d.create.Keys {
      var n :| n in own' && store'[n].service == s;
      if n !in CreatedNames(d) {
        assert n in own && store[n].service == s;
        assert s in Covered(store, site, wanted);
      }
    }
  }

  lemma KeptStays(kind: Kind, store: Store, site: string, wanted: Wanted, d: Diff, kept: map<string, string>)
    requires DiffMeans(kind, store, wanted, OfSite(store, site), d, kept)
    ensures forall s | s in kept ::
        kept[s] in OfSite(store, site) && kept[s] in store && store[kept[s]].service == s
        && kept[s] !in DeletedNames(d)
    ensures forall s | s in kept :: s in wanted
  {
    forall s, t | s in kept && t in d.delete ensures d.delete[t] != kept[s] {
      assert !IsKept(kept, t, d.delete[t]);
    }
  }

  lemma KeptIsCovered(kind: Kind, store: Store, site: string, wanted: Wanted, d: Diff, kept: map<string, string>)
    requires DiffMeans(kind, store, wanted, OfSite(store, site), d, kept)
    ensures Covered(store, site, wanted) == kept.Keys && kept.Keys !! d.create.Keys
    ensures forall s | s in d.create :: s in wanted
  {
    hide Matches;
    forall s | s in kept ensures s in Covered(store, site, wanted) {
      assert kept[s] in OfSite(store, site) && store[kept[s]].service == s;
    }
  }

  lemma SurplusAfter(kind: Kind, store: Store, site: string, wanted: Wanted, d: Diff, kept: map<string, string>,
                     store': Store)
    requires DiffMeans(kind, store, wanted, OfSite(store, site), d, kept) && forall s | s in d.update :: s in wanted
    requires Applied(kind, store, site, wanted, d, store')
    ensures Surplus(store', site, wanted) == Surplus(store, site, wanted) - |d.delete.Keys|
  {
    OwnAfter(kind, store, site, wanted, d, kept, store');
    CoveredAfter(kind, store, site, wanted, d, kept, store');
    MapSize(d);
    hide DiffMeans, Applied, OfSite, Covered, DeletedNames, CreatedNames;
    var own, gone, added := OfSite(store, site), DeletedNames(d), CreatedNames(d);
    assert |own - gone| == |own| - |gone|;
    assert |(own - gone) + added| == |own - gone| + |added|;
  }

  ghost predicate AllMatch(kind: Kind, store: Store, site: string, wanted: Wanted) {
    forall n | n in OfSite(store, site) :: store[n].service in wanted
        && Matches(kind, n, store[n], wanted[store[n].service])
  }

  /** The record is the kept one or the created one of its service, and it matches. */
  ghost predicate IsRight(kind: Kind, wanted: Wanted, d: Diff, kept: map<string, string>, n: string, r: Record) {
    && r.service in wanted && Matches(kind, n, r, wanted[r.service])
    && (IsKept(kept, r.service, n) || (r.service in d.create && r.service !in kept && d.create[r.service].name == n))
  }

  lemma RecordAfter(kind: Kind, store: Store, site: string, wanted: Wanted, d: Diff, kept: map<string, string>,
                    store': Store, n: string)
    requires DiffMeans(kind, store, wanted, OfSite(store, site), d, kept) && forall s | s in d.update :: s in wanted
    requires Applied(kind, store, site, wanted, d, store') && d.delete == map[] && n in OfSite(store', site)
    ensures IsRight(kind, wanted, d, kept, n, store'[n])
  {
    assert DeletedNames(d) == {};
    if n in store {
      assert IsKept(kept, store[n].service, n);
      if store[n].service !in d.update {
        assert !exists s :: s in d.update && d.update[s] == n;
      }
    } else {
      var s :| s in d.create && d.create[s].name == n;
    }
  }

  lemma RightCorrespond(kind: Kind, store: Store, site: string, wanted: Wanted, d: Diff, kept: map<string, string>)
    requires forall n | n in OfSite(store, site) :: IsRight(kind, wanted, d, kept, n, store[n])
    requires wanted.Keys <= Covered(store, site, wanted)
    ensures Corresponds(kind, store, site, wanted) && AllMatch(kind, store, site, wanted)
  {
    hide Matches;
    forall s | s in wanted ensures exists n :: n in OfSite(store, site) && store[n].service == s {
      assert s in Covered(store, site, wanted);
    }
  }

  /** A pass that has nothing to delete establishes the correspondence, and every record then matches. */
  lemma NothingToDelete(kind: Kind, store: Store, site: string, wanted: Wanted, d: Diff, kept: map<string, string>,
                        store': Store)
    requires DiffMeans(kind, store, wanted, OfSite(store, site), d, kept) && forall s | s in d.update :: s in wanted
    requires Applied(kind, store, site, wanted, d, store') && d.delete == map[]
    ensures Corresponds(kind, store', site, wanted) && AllMatch(kind, store', site, wanted)
  {
    hide Applied, DiffMeans, OfSite, Covered, IsRight, Corresponds, AllMatch;
    CoveredAfter(kind, store, site, wanted, d, kept, store');
    KeptIsCovered(kind, store, site, wanted, d, kept);
    CreatedExactly(kind, store, wanted, OfSite(store, site), d, kept);
    forall n | n in OfSite(store', site) ensures IsRight(kind, wanted, d, kept, n, store'[n]) {
      RecordAfter(kind, store, site, wanted, d, kept, store', n);
    }
    RightCorrespond(kind, store', site, wanted, d, kept);
  }

  // Convergence

  ghost predicate IsPass(kind: Kind, store: Store, site: string, wanted: Wanted, listing: seq<string>, o: Orders) {
    && IsOrderOf(listing, OfSite(store, site))
    && AreOrders(o, DiffOf(kind, store, wanted, listing))
    && forall s | s in o.update :: s in wanted
  }

  /** What a pass without a failure does, by whether it had something to delete. */
  lemma PassMeans(kind: Kind, store: Store, site: string, wanted: Wanted, listing: seq<string>, o: Orders, api: Api)
    requires IsPass(kind, store, site, wanted, listing, o)
    requires !EnsureCreated(kind, store, site, wanted, listing, o, api).failed
    ensures var store', d := EnsureCreated(kind, store, site, wanted, listing, o, api).store,
        DiffOf(kind, store, wanted, listing);
            && Surplus(store', site, wanted) == Surplus(store, site, wanted) - |d.delete.Keys|
            && (d.delete == map[] ==> Corresponds(kind, store', site, wanted) && AllMatch(kind, store', site, wanted))
  {
    var d, kept := DiffOf(kind, store, wanted, listing), Kept(store, wanted, listing);
    assert ToSet(listing) == OfSite(store, site);
    DiffIsMeant(kind, store, wanted, listing);
    UpdatesAreWanted(kind, store, wanted, listing);
    ApplyMeans(kind, store, site, wanted, d, kept, o, api);
    var store' := EnsureCreated(kind, store, site, wanted, listing, o, api).store;
    hide DiffOf, Kept, Apply, DiffMeans, Applied, OfSite, Surplus, Corresponds, AllMatch;
    SurplusAfter(kind, store, site, wanted, d, kept, store');
    if d.delete == map[] {
      NothingToDelete(kind, store, site, wanted, d, kept, store');
    }
  }

  /** A pass that neither fails nor finds the site complete strictly decreases the pair (surplus records,
      unmatched services); a complete site stays complete. */
  lemma PassDecreases(kind: Kind, store: Store, site: string, wanted: Wanted, listing: seq<string>, o: Orders, api: Api)
    requires IsPass(kind, store, site, wanted, listing, o)
    requires !EnsureCreated(kind, store, site, wanted, listing, o, api).failed
    ensures var r := EnsureCreated(kind, store, site, wanted, listing, o, api);
            var before, after := Surplus(store, site, wanted), Surplus(r.store, site, wanted);
            && 0 <= after <= before
            && (r.complete <==> Corresponds(kind, store, site, wanted))
            && (r.complete ==> Corresponds(kind, r.store, site, wanted))
            && (!r.complete ==> after < before || |Unmatched(kind, r.store, site, wanted)| < |Unmatched(kind, store,
                site, wanted)|)
            && (!r.complete && after == before ==> Corresponds(kind, r.store, site, wanted))
  {
    var r, d := EnsureCreated(kind, store, site, wanted, listing, o, api), DiffOf(kind, store, wanted, listing);
    PassMeans(kind, store, site, wanted, listing, o, api);
    CompleteExactly(kind, store, site, wanted, listing);
    SurplusIsNatural(r.store, site, wanted);
    if d.delete == map[] {
      NothingUnmatched(kind, r.store, site, wanted);
      if !r.complete {
        SomethingUnmatched(kind, store, site, wanted, listing);
      }
    } else {
      assert d.delete.Keys != {};
    }
  }

  lemma NothingUnmatched(kind: Kind, store: Store, site: string, wanted: Wanted)
    requires Corresponds(kind, store, site, wanted) && AllMatch(kind, store, site, wanted)
    ensures Unmatched(kind, store, site, wanted) == {}
  {
    forall s | s in wanted ensures s !in Unmatched(kind, store, site, wanted) {
      var n :| n in OfSite(store, site) && store[n].service == s;
      assert Matches(kind, n, store[n], wanted[s]);
    }
  }

  lemma SomethingUnmatched(kind: Kind, store: Store, site: string, wanted: Wanted, listing: seq<string>)
    requires IsOrderOf(listing, OfSite(store, site))
    requires var d := DiffOf(kind, store, wanted, listing); d.delete == map[] && !IsComplete(kind, d)
    ensures Unmatched(kind, store, site, wanted) != {}
  {
    var d, kept := DiffOf(kind, store, wanted, listing), Kept(store, wanted, listing);
    assert ToSet(listing) == OfSite(store, site);
    DiffIsMeant(kind, store, wanted, listing);
    hide DiffOf, Kept, OfSite, Matches;
    assert d.create.Keys != {} || d.update.Keys != {};
    var s :| s in d.create || s in d.update;
    forall n | n in OfSite(store, site) && store[n].service == s ensures !Matches(kind, n, store[n], wanted[s]) {
      assert IsKept(kept, s, n);
    }
    assert s in Unmatched(kind, store, site, wanted);
  }

  datatype Pass = Pass(listing: seq<string>, orders: Orders, api: Api)

  /** Consecutive passes without a failure, each with its own orders. */
  ghost predicate IsRun(kind: Kind, site: string, wanted: Wanted, stores: seq<Store>, passes: seq<Pass>) {
    && |stores| == |passes| + 1
    && forall i | 0 <= i < |passes| :: IsStep(kind, site, wanted, stores[i], passes[i], stores[i + 1])
  }

  ghost predicate IsStep(kind: Kind, site: string, wanted: Wanted, before: Store, p: Pass, after: Store) {
    && IsPass(kind, before, site, wanted, p.listing, p.orders)
    && var r := EnsureCreated(kind, before, site, wanted, p.listing, p.orders, p.api);
       !r.failed && r.store == after
  }

  lemma StepDecreases(kind: Kind, site: string, wanted: Wanted, before: Store, p: Pass, after: Store)
    requires IsStep(kind, site, wanted, before, p, after)
    ensures 0 <= Surplus(after, site, wanted) <= Surplus(before, site, wanted)
    ensures Corresponds(kind, before, site, wanted) || Surplus(after, site, wanted) == Surplus(before, site, wanted)
        ==> Corresponds(kind, after, site, wanted)
  {
    PassDecreases(kind, before, site, wanted, p.listing, p.orders, p.api);
    hide EnsureCreated, Surplus, Corresponds, Unmatched;
  }

  lemma TailIsRun(kind: Kind, site: string, wanted: Wanted, stores: seq<Store>, passes: seq<Pass>)
    requires IsRun(kind, site, wanted, stores, passes) && passes != []
    ensures IsRun(kind, site, wanted, stores[1..], passes[1..])
        && IsStep(kind, site, wanted, stores[0], passes[0], stores[1])
  {
    hide IsStep;
    forall i | 0 <= i < |passes[1..]| ensures IsStep(kind, site, wanted, stores[1..][i], passes[1..][i],
        stores[1..][i + 1]) {
      assert IsStep(kind, site, wanted, stores[i + 1], passes[i + 1], stores[i + 2]);
    }
  }

  /** However many records a service has too many, and although only one of them goes per pass: after
      more passes than there are surplus records the site is complete, and it stays so. */
  lemma {:induction false} Converges(kind: Kind, site: string, wanted: Wanted, stores: seq<Store>, passes: seq<Pass>)
    requires IsRun(kind, site, wanted, stores, passes)
    requires |passes| > Surplus(stores[0], site, wanted) || Corresponds(kind, stores[0], site, wanted)
    ensures Corresponds(kind, stores[|passes|], site, wanted)
    decreases |passes|
  {
    hide IsStep, Surplus, Corresponds;
    if passes != [] {
      TailIsRun(kind, site, wanted, stores, passes);
      StepDecreases(kind, site, wanted, stores[0], passes[0], stores[1]);
      hide IsRun;
      Converges(kind, site, wanted, stores[1..], passes[1..]);
    } else {
      SurplusIsNatural(stores[0], site, wanted);
    }
  }

  // When a pass fails although no call does

  lemma {:induction false} DeletesSucceed(store: Store, d: Diff, order: seq<string>, api: Api)
    requires (forall s | s in order :: s in d.delete) && ErrorFree(api)
    ensures !DeleteAll(store, d, order, api).1
  {
    if order != [] {
      DeletesSucceed(store, d, order[..|order| - 1], api);
    }
  }

  lemma {:induction false} CreatesFailExactly(store: Store, site: string, d: Diff, order: seq<string>, api: Api)
    requires (forall s | s in order :: s in d.create) && ErrorFree(api) && IsOrderOf(order, ToSet(order))
    requires forall a, b | a in d.create && b in d.create && a != b :: d.create[a].name != d.create[b].name
    ensures CreateAll(store, site, d, order, api).1 <==> exists s :: s in order && d.create[s].name in store
  {
    if order != [] {
      var front, last := order[..|order| - 1], order[|order| - 1];
      CreatesFailExactly(store, site, d, front, api);
      assert forall s :: s in order <==> s in front || s == last;
      var (mid, failed) := CreateAll(store, site, d, front, api);
      if !failed {
        CreateAllMeans(store, site, d, front, api);
        assert last !in ToSet(front);
        assert d.create[last].name in mid <==> d.create[last].name in store;
      }
    }
  }

  lemma {:induction false} UpdatesFailExactly(kind: Kind, store: Store, wanted: Wanted, d: Diff, order: seq<string>,
                                              api: Api)
    requires (forall s | s in order :: s in d.update && s in wanted && d.update[s] in store) && ErrorFree(api)
    ensures UpdateAll(kind, store, wanted, d, order, api).1
        <==> kind == Databases && exists s :: s in order && d.update[s] != wanted[s].name
    ensures UpdateAll(kind, store, wanted, d, order, api).0.Keys == store.Keys
  {
    if order != [] {
      UpdatesFailExactly(kind, store, wanted, d, order[..|order| - 1], api);
      assert forall s :: s in order <==> s in order[..|order| - 1] || s == order[|order| - 1];
    }
  }

  /** Without a failing call a pass fails exactly when the name of a missing object is taken by one that
      this pass does not delete, or when the kept record of a database task has another name. */
  lemma FailsExactly(kind: Kind, store: Store, site: string, wanted: Wanted, listing: seq<string>, o: Orders, api: Api)
    requires IsPass(kind, store, site, wanted, listing, o) && DistinctNames(wanted) && ErrorFree(api)
    ensures var d := DiffOf(kind, store, wanted, listing);
            EnsureCreated(kind, store, site, wanted, listing, o, api).failed <==>
              || (exists s :: s in d.create && d.create[s].name in store && d.create[s].name !in DeletedNames(d))
              || (kind == Databases && exists s :: s in d.update && s in wanted && d.update[s] != wanted[s].name)
  {
    var d, kept := DiffOf(kind, store, wanted, listing), Kept(store, wanted, listing);
    assert ToSet(listing) == OfSite(store, site);
    DiffIsMeant(kind, store, wanted, listing);
    UpdatesAreWanted(kind, store, wanted, listing);
    UpdatesDiffer(kind, store, site, wanted, d, kept);
    CreatedNamesDiffer(kind, store, site, wanted, d, kept);
    hide DiffOf, Kept, DiffMeans, OfSite, DistinctNames;
    DeletesSucceed(store, d, o.delete, api);
    DeleteAllMeans(store, d, o.delete, api);
    var deleted := DeleteAll(store, d, o.delete, api).0;
    assert deleted == store - DeletedNames(d) by {
      assert (set s | s in o.delete :: d.delete[s]) == DeletedNames(d);
    }
    assert IsOrderOf(o.create, ToSet(o.create)) && ToSet(o.create) == d.create.Keys;
    hide DeleteAll, CreateAll, UpdateAll;
    if kind == MigrationJobs {
      UpdatesFailExactly(kind, deleted, wanted, d, o.update, api);
      CreatesFailExactly(UpdateAll(kind, deleted, wanted, d, o.update, api).0, site, d, o.create, api);
    } else {
      CreatesFailExactly(deleted, site, d, o.create, api);
      var created := CreateAll(deleted, site, d, o.create, api);
      if !created.1 {
        CreateAllMeans(deleted, site, d, o.create, api);
        UpdatesFailExactly(kind, created.0, wanted, d, o.update, api);
      }
    }
  }

  lemma CreatedNamesDiffer(kind: Kind, store: Store, site: string, wanted: Wanted, d: Diff, kept: map<string, string>)
    requires DiffMeans(kind, store, wanted, OfSite(store, site), d, kept) && DistinctNames(wanted)
    ensures forall a, b | a in d.create && b in d.create && a != b :: d.create[a].name != d.create[b].name
  {
  }

  // Whatever fails

  lemma {:induction false} CreatesKeep(store: Store, site: string, d: Diff, order: seq<string>, api: Api)
    requires forall s | s in order :: s in d.create
    ensures var after := CreateAll(store, site, d, order, api).0;
            forall n | n in store :: n in after && after[n] == store[n]
  {
    if order != [] {
      CreatesKeep(store, site, d, order[..|order| - 1], api);
    }
  }

  lemma {:induction false} UpdatesOnlyTheirs(kind: Kind, store: Store, wanted: Wanted, d: Diff, order: seq<string>,
                                             api: Api, n: string)
    requires (forall s | s in order :: s in d.update && s in wanted) && n in store
    requires forall s | s in d.update && s in wanted :: d.update[s] != n || (kind == Databases && wanted[s].name != n)
    ensures var after := UpdateAll(kind, store, wanted, d, order, api).0; n in after && after[n] == store[n]
  {
    if order != [] {
      UpdatesOnlyTheirs(kind, store, wanted, d, order[..|order| - 1], api, n);
    }
  }

  lemma OnlyOwnAreMeant(kind: Kind, store: Store, site: string, wanted: Wanted, d: Diff, kept: map<string, string>)
    requires DiffMeans(kind, store, wanted, OfSite(store, site), d, kept)
    ensures forall s | s in d.delete :: d.delete[s] in store && store[d.delete[s]].site == site
    ensures forall s | s in d.update :: d.update[s] in store && store[d.update[s]].site == site
  {
    hide Matches;
  }

  /** Neither order of creation and update touches a record that is neither created nor updated. */
  lemma WritesKeep(kind: Kind, deleted: Store, site: string, wanted: Wanted, d: Diff, o: Orders, api: Api, n: string)
    requires (forall s | s in o.create :: s in d.create) && (forall s | s in o.update :: s in d.update && s in wanted)
        && n in deleted
    requires forall s | s in d.update && s in wanted :: d.update[s] != n || (kind == Databases && wanted[s].name != n)
    ensures var updated := UpdateAll(kind, deleted, wanted, d, o.update, api).0;
            var both := CreateAll(updated, site, d, o.create, api).0;
            n in updated && updated[n] == deleted[n] && n in both && both[n] == deleted[n]
    ensures var created := CreateAll(deleted, site, d, o.create, api).0;
            var both := UpdateAll(kind, created, wanted, d, o.update, api).0;
            n in created && created[n] == deleted[n] && n in both && both[n] == deleted[n]
  {
    hide CreateAll, UpdateAll;
    UpdatesOnlyTheirs(kind, deleted, wanted, d, o.update, api, n);
    CreatesKeep(UpdateAll(kind, deleted, wanted, d, o.update, api).0, site, d, o.create, api);
    CreatesKeep(deleted, site, d, o.create, api);
    UpdatesOnlyTheirs(kind, CreateAll(deleted, site, d, o.create, api).0, wanted, d, o.update, api, n);
  }

  lemma PassFacts(kind: Kind, store: Store, site: string, wanted: Wanted, listing: seq<string>, o: Orders)
    requires IsPass(kind, store, site, wanted, listing, o)
    ensures forall n | n in listing :: n in store
    ensures var d := DiffOf(kind, store, wanted, listing);
            && DiffMeans(kind, store, wanted, OfSite(store, site), d, Kept(store, wanted, listing))
            && (forall s | s in o.delete :: s in d.delete)
            && (forall s | s in o.create :: s in d.create)
            && (forall s | s in o.update :: s in d.update && s in wanted)
  {
    assert ToSet(listing) == OfSite(store, site);
    DiffIsMeant(kind, store, wanted, listing);
    hide DiffMeans, DiffOf, Kept;
  }

  /** A record that the difference neither deletes nor can update stays as it is, whatever fails. */
  lemma PassKeeps(kind: Kind, store: Store, site: string, wanted: Wanted, listing: seq<string>, o: Orders, api: Api,
                  n: string)
    requires IsPass(kind, store, site, wanted, listing, o) && n in store
    requires var d := DiffOf(kind, store, wanted, listing);
             && (forall s | s in d.delete :: d.delete[s] != n)
             && (forall s | s in d.update && s in wanted ::
                 d.update[s] != n
                 || (kind == Databases && wanted[s].name != n))
    ensures var after := EnsureCreated(kind, store, site, wanted, listing, o, api).store;
        n in after
        && after[n] == store[n]
  {
    hide DiffOf, DeleteAll, CreateAll, UpdateAll, OfSite, Kept, DiffMeans;
    PassFacts(kind, store, site, wanted, listing, o);
    var d := DiffOf(kind, store, wanted, listing);
    hide IsPass;
    DeletesKeep(store, d, o.delete, api, n);
    WritesKeep(kind, DeleteAll(store, d, o.delete, api).0, site, wanted, d, o, api, n);
  }

  /** No pass touches the records of other sites, whatever fails. */
  lemma OthersAreUntouched(kind: Kind, store: Store, site: string, wanted: Wanted, listing: seq<string>, o: Orders,
                           api: Api, n: string)
    requires IsPass(kind, store, site, wanted, listing, o) && n in store && store[n].site != site
    ensures var after := EnsureCreated(kind, store, site, wanted, listing, o, api).store;
        n in after
        && after[n] == store[n]
  {
    hide EnsureCreated, DiffOf, Kept, DiffMeans;
    PassFacts(kind, store, site, wanted, listing, o);
    var d, kept := DiffOf(kind, store, wanted, listing), Kept(store, wanted, listing);
    OnlyOwnAreMeant(kind, store, site, wanted, d, kept);
    PassKeeps(kind, store, site, wanted, listing, o, api, n);
  }

  /** After a change of a service's short name its database task keeps the old name for good: no pass
      updates, deletes or replaces it, and none ever calls the site complete. */
  lemma RenameIsNeverFollowed(store: Store, site: string, wanted: Wanted, listing: seq<string>, o: Orders, api: Api,
                              n: string)
    requires IsPass(Databases, store, site, wanted, listing, o) && n in OfSite(store, site)
    requires store[n].service in wanted && wanted[store[n].service].name != n
    requires forall m | m in OfSite(store, site) && m != n :: store[m].service != store[n].service
    ensures var r := EnsureCreated(Databases, store, site, wanted, listing, o, api);
            && !r.complete && n in r.store && r.store[n] == store[n]
  {
    hide DiffOf, Kept, DiffMeans, Apply;
    PassFacts(Databases, store, site, wanted, listing, o);
    var d, kept := DiffOf(Databases, store, wanted, listing), Kept(store, wanted, listing);
    CompleteExactly(Databases, store, site, wanted, listing);
    assert !Corresponds(Databases, store, site, wanted);
    RecordIsKept(store, site, wanted, d, kept, n);
    PassKeeps(Databases, store, site, wanted, listing, o, api, n);
  }

  lemma RecordIsKept(store: Store, site: string, wanted: Wanted, d: Diff, kept: map<string, string>, n: string)
    requires DiffMeans(Databases, store, wanted, OfSite(store, site), d, kept) && n in OfSite(store, site)
        && store[n].service in wanted
    requires forall m | m in OfSite(store, site) && m != n :: store[m].service != store[n].service
    ensures forall s | s in d.delete :: d.delete[s] != n
    ensures forall s | s in d.update && d.update[s] == n :: s == store[n].service
  {
    assert IsKept(kept, store[n].service, n);
  }

  lemma {:induction false} DeletesKeep(store: Store, d: Diff, order: seq<string>, api: Api, n: string)
    requires (forall s | s in order :: s in d.delete) && n in store && forall s | s in d.delete :: d.delete[s] != n
    ensures var after := DeleteAll(store, d, order, api).0; n in after && after[n] == store[n]
  {
    if order != [] {
      DeletesKeep(store, d, order[..|order| - 1], api, n);
    }
  }
}
