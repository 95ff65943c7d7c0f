/** The Redis handler does to its tasks what the other database handlers do to theirs, and what each task
    then says (`handlers/task/redis_handler.go:23-116`). */
module RedisOutcomes {
  import opened Iteration
  import opened Jobs
  import opened Redis
  import T = TaskDiff
  import C = TaskConvergence
  import O = TaskOutcomes

  /** A Redis task is wanted in one environment. */
  ghost predicate AreRedis(wanted: T.Wanted) {
    forall s | s in wanted :: |wanted[s].content| == 1
  }

  function Generic(api: Api): T.Api { T.Api(api.read, api.delete, api.create, api.update) }

  lemma ViewOfDelete(r: Reservations, name: string)
    ensures View(r - {name}) == View(r) - {name}
  {
  }

  lemma ViewOfWrite(r: Reservations, name: string, x: Reservation)
    ensures View(r[name := x]) == View(r)[name := T.Record(x.site, x.service, [x.environment], x.state)]
  {
  }

  lemma {:induction false} DeleteRefines(s: State, d: T.Diff, order: seq<string>, api: Api)
    requires (forall x | x in order :: x in d.delete) && !DeleteAll(s, d, order, api).1
    ensures T.DeleteAll(View(s.store), d, order, Generic(api)) == (View(DeleteAll(s, d, order, api).0.store), false)
  {
    if order != [] {
      hide View;
      DeleteRefines(s, d, order[..|order| - 1], api);
      ViewOfDelete(DeleteAll(s, d, order[..|order| - 1], api).0.store, d.delete[order[|order| - 1]]);
    }
  }

  lemma {:induction false} CreateRefines(s: State, counts: Counts, site: string, d: T.Diff, order: seq<string>,
                                         api: Api)
    requires (forall x | x in order :: x in d.create && |d.create[x].content| == 1)
    requires !CreateAll(s, counts, site, d, order, api).1
    ensures T.CreateAll(View(s.store), site, d, order, Generic(api)) ==
            (View(CreateAll(s, counts, site, d, order, api).0.store), false)
  {
    if order != [] {
      CreateRefines(s, counts, site, d, order[..|order| - 1], api);
      var mid, last := CreateAll(s, counts, site, d, order[..|order| - 1], api).0, order[|order| - 1];
      assert forall n :: n in View(mid.store) <==> n in mid.store;
      var number := Allocate(mid.store, counts, EnvironmentOf(d.create[last]), api.lookUp(last));
      hide View, Allocate;
      assert d.create[last].content == [EnvironmentOf(d.create[last])];
      ViewOfWrite(mid.store, d.create[last].name,
          Reservation(site, last, EnvironmentOf(d.create[last]), number.value, Unset));
    }
  }

  lemma {:induction false} UpdateRefines(s: State, wanted: T.Wanted, d: T.Diff, order: seq<string>, api: Api)
    requires (forall x | x in order :: x in d.update && x in wanted && |wanted[x].content| == 1)
    requires !UpdateAll(s, wanted, d, order, api).1
    ensures T.UpdateAll(T.Databases, View(s.store), wanted, d, order, Generic(api)) ==
            (View(UpdateAll(s, wanted, d, order, api).0.store), false)
  {
    if order != [] {
      UpdateRefines(s, wanted, d, order[..|order| - 1], api);
      var mid, last := UpdateAll(s, wanted, d, order[..|order| - 1], api).0, order[|order| - 1];
      var name := d.update[last];
      assert name in mid.store && name in View(mid.store);
      var x := mid.store[name].(environment := EnvironmentOf(wanted[last]), number := 0);
      assert View(mid.store)[name].(content := wanted[last].content) ==
          T.Record(x.site, x.service, [x.environment], x.state) by {
        assert wanted[last].content == [EnvironmentOf(wanted[last])];
      }
      hide View;
      ViewOfWrite(mid.store, name, x);
    }
  }

  /** Refinement: where the Redis handler does not fail, its tasks are afterwards what the generic handler
      makes of them. */
  lemma RefinesGeneric(s: State, counts: Counts, site: string, wanted: T.Wanted, listing: seq<string>, o: T.Orders,
                       api: Api)
    requires AreRedis(wanted) && C.IsPass(T.Databases, View(s.store), site, wanted, listing, o)
    ensures forall n | n in listing :: n in View(s.store)
    ensures Fits(T.DiffOf(T.Databases, View(s.store), wanted, listing), wanted, o)
    ensures var d := T.DiffOf(T.Databases, View(s.store), wanted, listing);
            var r := EnsureCreated(s, counts, site, wanted, d, o, api);
            !r.failed ==>
              T.EnsureCreated(T.Databases, View(s.store), site, wanted, listing, o, Generic(api)) ==
              T.Result(View(r.s.store), r.complete, false)
  {
    C.PassFacts(T.Databases, View(s.store), site, wanted, listing, o);
    var d := T.DiffOf(T.Databases, View(s.store), wanted, listing);
    T.UpdatesAreWanted(T.Databases, View(s.store), wanted, listing);
    CreatesAreRedis(View(s.store), wanted, listing);
    hide View, T.DiffOf, DeleteAll, CreateAll, UpdateAll, T.DeleteAll, T.CreateAll, T.UpdateAll, LacksNumber,
        C.DiffMeans;
    var r := EnsureCreated(s, counts, site, wanted, d, o, api);
    if !r.failed {
      DeleteRefines(s, d, o.delete, api);
      var deleted := DeleteAll(s, d, o.delete, api).0;
      CreateRefines(deleted, counts, site, d, o.create, api);
      var created := CreateAll(deleted, counts, site, d, o.create, api).0;
      UpdateRefines(created, wanted, d, o.update, api);
    }
  }

  lemma CreatesAreRedis(view: T.Store, wanted: T.Wanted, listing: seq<string>)
    requires (forall n | n in listing :: n in view) && AreRedis(wanted)
    requires IsOrderOf(listing, ToSet(listing))
    ensures forall x | x in T.DiffOf(T.Databases, view, wanted, listing).create ::
              |T.DiffOf(T.Databases, view, wanted, listing).create[x].content| == 1
  {
    C.DiffIsMeant(T.Databases, view, wanted, listing);
    hide T.DiffOf, C.Kept;
  }

  // One task

  ghost predicate HasNone(r: Reservations, site: string, s: string) {
    forall n | n in r && r[n].site == site :: r[n].service != s
  }

  ghost predicate IsTheOne(r: Reservations, site: string, s: string, n: string) {
    && n in r && r[n].site == site && r[n].service == s
    && forall m | m in r && r[m].site == site && r[m].service == s :: m == n
  }

  /** After a pass that does not fail: a wanted service without a Redis task has one, under the wanted name
      and in the wanted environment; its only task is in the wanted environment; and the only task of a
      service that is not wanted is gone, or its name is another one's. */
  lemma PassLeavesTasks(s: State, counts: Counts, site: string, wanted: T.Wanted, listing: seq<string>, o: T.Orders,
                        api: Api, service: string)
    requires AreRedis(wanted) && C.IsPass(T.Databases, View(s.store), site, wanted, listing, o)
    requires (forall n | n in listing :: n in View(s.store))
    requires Fits(T.DiffOf(T.Databases, View(s.store), wanted, listing), wanted, o)
    requires !EnsureCreated(s, counts, site, wanted, T.DiffOf(T.Databases, View(s.store), wanted, listing), o,
        api).failed
    ensures var d := T.DiffOf(T.Databases, View(s.store), wanted, listing);
            var after := EnsureCreated(s, counts, site, wanted, d, o, api).s.store;
            && (service in wanted && HasNone(s.store, site, service) ==>
                  var name := wanted[service].name;
                  && name in after && after[name].site == site && after[name].service == service
                  && after[name].environment == wanted[service].content[0] && after[name].state == Unset)
            && (forall n | service in wanted && IsTheOne(s.store, site, service, n) ::
                  && n == wanted[service].name && n in after && after[n].site == site && after[n].service == service
                  && after[n].environment == wanted[service].content[0] && after[n].state == s.store[n].state)
            && (forall n | service !in wanted && IsTheOne(s.store, site, service, n) && n in after ::
                  after[n].service in wanted && wanted[after[n].service].name == n)
  {
    var d := T.DiffOf(T.Databases, View(s.store), wanted, listing);
    var after := EnsureCreated(s, counts, site, wanted, d, o, api).s.store;
    RefinesGeneric(s, counts, site, wanted, listing, o, api);
    hide EnsureCreated, T.DiffOf;
    O.PassLeavesRecords(T.Databases, View(s.store), site, wanted, listing, o, Generic(api), service);
    hide C.IsPass, T.EnsureCreated;
    assert forall n :: n in View(s.store) <==> n in s.store;
    assert forall n :: n in View(after) <==> n in after;
    assert HasNone(s.store, site, service) ==> O.HasNoRecord(View(s.store), site, service);
    assert forall n | IsTheOne(s.store, site, service, n) :: O.IsTheRecord(View(s.store), site, service, n);
    assert service in wanted ==> wanted[service].content == [wanted[service].content[0]];
  }
}
