/** The handlers that bring the database tasks and jobs of a site in line with its spec.
    `handlers/task/mysql_handler.go`, its MongoDB twin, `handlers/job/db_init_job_handler.go` and
    `handlers/job/db_migration_job_handler.go` share one shape and differ in what counts as a match. */
module TaskDiff {
  import opened Iteration
  import opened Jobs
  import opened Names

  datatype Kind = Databases | InitJobs | MigrationJobs

  /** An object of the store, under its name.  `content` lists the fields that the handler compares;
      the labels are functions of the site, the service and the environment. */
  datatype Record = Record(site: string, service: string, content: seq<string>, state: JobState)

  type Store = map<string, Record>

  datatype Expected = Expected(name: string, content: seq<string>)

  /** What the site spec asks for, by service. */
  type Wanted = map<string, Expected>

  function RecordName(md5: string -> string, site: string, shortName: string): string
    requires IsDigest(md5)
  {
    ShortenHumanReadableValue(md5, site, 50) + "-" + shortName
  }

  ghost predicate DistinctNames(wanted: Wanted) {
    forall a, b | a in wanted && b in wanted && a != b :: wanted[a].name != wanted[b].name
  }

  /** Unique short names give distinct names. */
  lemma NamesAreDistinct(md5: string -> string, site: string, wanted: Wanted, shortNames: map<string, string>)
    requires IsDigest(md5)
    requires forall s | s in wanted :: s in shortNames && wanted[s].name == RecordName(md5, site, shortNames[s])
    ensures DistinctNames(wanted) <==> forall a, b | a in wanted && b in wanted
        && a != b :: shortNames[a] != shortNames[b]
  {
    var prefix := ShortenHumanReadableValue(md5, site, 50) + "-";
    forall a, b | a in wanted && b in wanted && a != b
      ensures wanted[a].name == wanted[b].name <==> shortNames[a] == shortNames[b]
    {
      assert (prefix + shortNames[a])[|prefix|..] == shortNames[a];
      assert (prefix + shortNames[b])[|prefix|..] == shortNames[b];
    }
  }

  /** Migration jobs are compared without their names, init jobs not at all. */
  predicate Matches(kind: Kind, name: string, r: Record, e: Expected) {
    match kind
    case Databases => name == e.name && r.content == e.content
    case InitJobs => true
    case MigrationJobs => r.content == e.content
  }

  function OfSite(store: Store, site: string): (own: set<string>)
    ensures forall n :: n in own <==> n in store && store[n].site == site
  {
    set n | n in store && store[n].site == site
  }

  // The difference between what is and what is wanted

  /** The three maps that the handler fills, keyed by service. */
  datatype Diff = Diff(create: Wanted, update: map<string, string>, delete: map<string, string>)

  function DiffStep(kind: Kind, store: Store, d: Diff, name: string): Diff
    requires name in store
  {
    var r := store[name];
    if r.service in d.create then
      Diff(d.create - {r.service}, if Matches(kind, name, r, d.create[r.service]) then d.update
          else d.update[r.service := name], d.delete)
    else d.(delete := d.delete[r.service := name])
  }

  function DiffOf(kind: Kind, store: Store, wanted: Wanted, listing: seq<string>): Diff
    requires forall n | n in listing :: n in store
  {
    if listing == [] then Diff(wanted, map[], map[])
    else DiffStep(kind, store, DiffOf(kind, store, wanted, listing[..|listing| - 1]), listing[|listing| - 1])
  }

  predicate IsComplete(kind: Kind, d: Diff) {
    d.delete == map[] && d.create == map[] && (kind == Databases ==> d.update == map[])
  }

  // The writes

  /** How the API calls of one pass end, per service.  `read` covers the listing and the configs. */
  datatype Api = Api(read: bool, delete: string -> Call, create: string -> Call, update: string -> Call)

  ghost predicate ErrorFree(api: Api) {
    api.read && forall s :: api.delete(s) == Ok && api.create(s) == Ok && api.update(s) == Ok
  }

  /** The order in which Go walks each of the three maps. */
  datatype Orders = Orders(delete: seq<string>, create: seq<string>, update: seq<string>)

  ghost predicate AreOrders(o: Orders, d: Diff) {
    IsOrderOf(o.delete, d.delete.Keys) && IsOrderOf(o.create, d.create.Keys) && IsOrderOf(o.update, d.update.Keys)
  }

  function DeleteOne(store: Store, d: Diff, s: string, api: Api): (Store, bool)
    requires s in d.delete
  {
    (if api.delete(s) == Rejected then store else store - {d.delete[s]}, api.delete(s) != Ok)
  }

  /** A name that is taken is an error. */
  function CreateOne(store: Store, site: string, d: Diff, s: string, api: Api): (Store, bool)
    requires s in d.create
  {
    var e := d.create[s];
    if e.name in store then (store, true)
    else (if api.create(s) == Rejected then store else store[e.name := Record(site, s, e.content, Unset)],
        api.create(s) != Ok)
  }

  /** Names are identities: an object under a changed name is another one, which does not exist or
      has another version. */
  function UpdateOne(kind: Kind, store: Store, wanted: Wanted, d: Diff, s: string, api: Api): (Store, bool)
    requires s in d.update && s in wanted
  {
    var name := d.update[s];
    if name !in store || (kind == Databases && name != wanted[s].name) then (store, true)
    else (if api.update(s) == Rejected then store else store[name := store[name].(content := wanted[s].content)],
        api.update(s) != Ok)
  }

  function DeleteAll(store: Store, d: Diff, order: seq<string>, api: Api): (Store, bool)
    requires forall s | s in order :: s in d.delete
  {
    if order == [] then (store, false)
    else
      var (before, failed) := DeleteAll(store, d, order[..|order| - 1], api);
      if failed then (before, true) else DeleteOne(before, d, order[|order| - 1], api)
  }

  function CreateAll(store: Store, site: string, d: Diff, order: seq<string>, api: Api): (Store, bool)
    requires forall s | s in order :: s in d.create
  {
    if order == [] then (store, false)
    else
      var (before, failed) := CreateAll(store, site, d, order[..|order| - 1], api);
      if failed then (before, true) else CreateOne(before, site, d, order[|order| - 1], api)
  }

  function UpdateAll(kind: Kind, store: Store, wanted: Wanted, d: Diff, order: seq<string>, api: Api): (Store, bool)
    requires forall s | s in order :: s in d.update && s in wanted
  {
    if order == [] then (store, false)
    else
      var (before, failed) := UpdateAll(kind, store, wanted, d, order[..|order| - 1], api);
      if failed then (before, true) else UpdateOne(kind, before, wanted, d, order[|order| - 1], api)
  }

  /** Deletions first; migration jobs are updated before, the others after new objects are created. */
  function Apply(kind: Kind, store: Store, site: string, wanted: Wanted, d: Diff, o: Orders, api: Api): (Store, bool)
    requires forall s | s in o.delete :: s in d.delete
    requires forall s | s in o.create :: s in d.create
    requires forall s | s in o.update :: s in d.update && s in wanted
  {
    var (deleted, failed) := DeleteAll(store, d, o.delete, api);
    if failed then (deleted, true)
    else if kind == MigrationJobs then
      var (updated, failed') := UpdateAll(kind, deleted, wanted, d, o.update, api);
      if failed' then (updated, true) else CreateAll(updated, site, d, o.create, api)
    else
      var (created, failed') := CreateAll(deleted, site, d, o.create, api);
      if failed' then (created, true) else UpdateAll(kind, created, wanted, d, o.update, api)
  }

  datatype Result = Result(store: Store, complete: bool, failed: bool)

  function EnsureCreated(kind: Kind, store: Store, site: string, wanted: Wanted, listing: seq<string>, o: Orders,
                         api: Api): Result
    requires forall n | n in listing :: n in store
    requires var d := DiffOf(kind, store, wanted, listing);
             && (forall s | s in o.delete :: s in d.delete)
             && (forall s | s in o.create :: s in d.create)
             && (forall s | s in o.update :: s in d.update && s in wanted)
  {
    if !api.read then Result(store, false, true)
    else
      var d := DiffOf(kind, store, wanted, listing);
      var (store', failed) := Apply(kind, store, site, wanted, d, o, api);
      Result(store', IsComplete(kind, d), failed)
  }

  /** A failed object is an error; otherwise every object has to be Complete. */
  datatype Readiness = Ready | NotReady | SomeFailed

  function ReadinessOf(store: Store, listing: seq<string>): Readiness
    requires forall n | n in listing :: n in store
  {
    if exists n | n in listing :: store[n].state == Failed then SomeFailed
    else if forall n | n in listing :: store[n].state == Complete then Ready else NotReady
  }

  // The handler

  class TaskHandler {
    const kind: Kind
    var store: Store

    constructor (kind: Kind, store: Store)
      ensures this.kind == kind && this.store == store
    {
      this.kind := kind;
      this.store := store;
    }

    method Compare(wanted: Wanted, listing: seq<string>) returns (d: Diff)
      requires forall n | n in listing :: n in store
      ensures d == DiffOf(kind, store, wanted, listing)
    {
      var toCreate, toUpdate, toDelete := wanted, map[], map[];
      for i := 0 to |listing|
        invariant Diff(toCreate, toUpdate, toDelete) == DiffOf(kind, store, wanted, listing[..i])
      {
        assert listing[..i + 1][..i] == listing[..i];
        var name := listing[i];
        var r := store[name];
        if r.service in toCreate {
          if !Matches(kind, name, r, toCreate[r.service]) {
            toUpdate := toUpdate[r.service := name];
          }
          toCreate := toCreate - {r.service};
        } else {
          toDelete := toDelete[r.service := name];
        }
      }
      assert listing[..|listing|] == listing;
      d := Diff(toCreate, toUpdate, toDelete);
    }

    method DeleteSurplus(d: Diff, order: seq<string>, api: Api) returns (failed: bool)
      requires forall s | s in order :: s in d.delete
      modifies this`store
      ensures (store, failed) == DeleteAll(old(store), d, order, api)
    {
      failed := false;
      for i := 0 to |order|
        invariant (store, false) == DeleteAll(old(store), d, order[..i], api)
      {
        DeleteOneMore(old(store), d, order, i, api);
        var s := order[i];
        if api.delete(s) != Rejected {
          store := store - {d.delete[s]};
        }
        if api.delete(s) != Ok {
          return true;
        }
      }
      assert order[..|order|] == order;
    }

    method CreateMissing(site: string, d: Diff, order: seq<string>, api: Api) returns (failed: bool)
      requires forall s | s in order :: s in d.create
      modifies this`store
      ensures (store, failed) == CreateAll(old(store), site, d, order, api)
    {
      failed := false;
      for i := 0 to |order|
        invariant (store, false) == CreateAll(old(store), site, d, order[..i], api)
      {
        CreateOneMore(old(store), site, d, order, i, api);
        var s := order[i];
        var e := d.create[s];
        if e.name in store {
          return true;
        }
        if api.create(s) != Rejected {
          store := store[e.name := Record(site, s, e.content, Unset)];
        }
        if api.create(s) != Ok {
          return true;
        }
      }
      assert order[..|order|] == order;
    }

    method UpdateMismatched(wanted: Wanted, d: Diff, order: seq<string>, api: Api) returns (failed: bool)
      requires forall s | s in order :: s in d.update && s in wanted
      modifies this`store
      ensures (store, failed) == UpdateAll(kind, old(store), wanted, d, order, api)
    {
      failed := false;
      for i := 0 to |order|
        invariant (store, false) == UpdateAll(kind, old(store), wanted, d, order[..i], api)
      {
        UpdateOneMore(kind, old(store), wanted, d, order, i, api);
        var s := order[i];
        var name := d.update[s];
        if name !in store || (kind == Databases && name != wanted[s].name) {
          return true;
        }
        if api.update(s) != Rejected {
          store := store[name := store[name].(content := wanted[s].content)];
        }
        if api.update(s) != Ok {
          return true;
        }
      }
      assert order[..|order|] == order;
    }

    method EnsureDatabasesAreCreated(site: string, wanted: Wanted, listing: seq<string>, o: Orders, api: Api)
      returns (complete: bool, failed: bool)
      requires IsOrderOf(listing, OfSite(store, site))
      requires AreOrders(o, DiffOf(kind, store, wanted, listing))
      modifies this`store
      ensures (forall s | s in o.update :: s in wanted)
      ensures Result(store, complete, failed) == EnsureCreated(kind, old(store), site, wanted, listing, o, api)
    {
      UpdatesAreWanted(kind, store, wanted, listing);
      if !api.read {
        return false, true;
      }
      var d := Compare(wanted, listing);
      complete := d.delete == map[] && d.create == map[] && (kind == Databases ==> d.update == map[]);
      failed := DeleteSurplus(d, o.delete, api);
      if failed {
        return;
      }
      if kind == MigrationJobs {
        failed := UpdateMismatched(wanted, d, o.update, api);
        if !failed {
          failed := CreateMissing(site, d, o.create, api);
        }
      } else {
        failed := CreateMissing(site, d, o.create, api);
        if !failed {
          failed := UpdateMismatched(wanted, d, o.update, api);
        }
      }
    }

    method EnsureDatabasesAreReady(listing: seq<string>) returns (r: Readiness)
      requires forall n | n in listing :: n in store
      ensures r == ReadinessOf(store, listing)
    {
      var ready := true;
      for i := 0 to |listing|
        invariant forall n | n in listing[..i] :: store[n].state != Failed
        invariant ready <==> forall n | n in listing[..i] :: store[n].state == Complete
      {
        assert listing[i] in listing;
        assert forall n | n in listing[..i + 1] :: n in listing[..i] || n == listing[i];
        if store[listing[i]].state == Failed {
          return SomeFailed;
        }
        ready := ready && store[listing[i]].state == Complete;
      }
      assert listing[..|listing|] == listing;
      r := if ready then Ready else NotReady;
    }
  }

  /** One more element: the whole of the order is decided by it when it fails. */
  lemma DeleteOneMore(store: Store, d: Diff, order: seq<string>, i: nat, api: Api)
    requires i < |order| && forall s | s in order :: s in d.delete
    requires !DeleteAll(store, d, order[..i], api).1
    ensures DeleteAll(store, d, order[..i + 1], api) ==
        DeleteOne(DeleteAll(store, d, order[..i], api).0, d, order[i], api)
    ensures DeleteAll(store, d, order[..i + 1], api).1
        ==> DeleteAll(store, d, order, api) == DeleteAll(store, d, order[..i + 1], api)
  {
    assert order[..i + 1][..i] == order[..i];
    if DeleteAll(store, d, order[..i + 1], api).1 {
      DeleteStops(store, d, order, i + 1, api);
    }
  }

  lemma {:induction false} DeleteStops(store: Store, d: Diff, order: seq<string>, k: nat, api: Api)
    requires k <= |order| && (forall s | s in order :: s in d.delete) && DeleteAll(store, d, order[..k], api).1
    ensures DeleteAll(store, d, order, api) == DeleteAll(store, d, order[..k], api)
    decreases |order|
  {
    if k == |order| {
      assert order[..k] == order;
    } else {
      assert order[..|order| - 1][..k] == order[..k];
      DeleteStops(store, d, order[..|order| - 1], k, api);
    }
  }

  lemma CreateOneMore(store: Store, site: string, d: Diff, order: seq<string>, i: nat, api: Api)
    requires i < |order| && forall s | s in order :: s in d.create
    requires !CreateAll(store, site, d, order[..i], api).1
    ensures CreateAll(store, site, d, order[..i + 1], api) ==
        CreateOne(CreateAll(store, site, d, order[..i], api).0, site, d, order[i], api)
    ensures CreateAll(store, site, d, order[..i + 1], api).1
        ==> CreateAll(store, site, d, order, api) == CreateAll(store, site, d, order[..i + 1], api)
  {
    assert order[..i + 1][..i] == order[..i];
    if CreateAll(store, site, d, order[..i + 1], api).1 {
      CreateStops(store, site, d, order, i + 1, api);
    }
  }

  lemma {:induction false} CreateStops(store: Store, site: string, d: Diff, order: seq<string>, k: nat, api: Api)
    requires k <= |order| && (forall s | s in order :: s in d.create) && CreateAll(store, site, d, order[..k], api).1
    ensures CreateAll(store, site, d, order, api) == CreateAll(store, site, d, order[..k], api)
    decreases |order|
  {
    if k == |order| {
      assert order[..k] == order;
    } else {
      assert order[..|order| - 1][..k] == order[..k];
      CreateStops(store, site, d, order[..|order| - 1], k, api);
    }
  }

  lemma UpdateOneMore(kind: Kind, store: Store, wanted: Wanted, d: Diff, order: seq<string>, i: nat, api: Api)
    requires i < |order| && forall s | s in order :: s in d.update && s in wanted
    requires !UpdateAll(kind, store, wanted, d, order[..i], api).1
    ensures UpdateAll(kind, store, wanted, d, order[..i + 1], api) ==
        UpdateOne(kind, UpdateAll(kind, store, wanted, d, order[..i], api).0, wanted, d, order[i], api)
    ensures UpdateAll(kind, store, wanted, d, order[..i + 1], api).1 ==>
              UpdateAll(kind, store, wanted, d, order, api) == UpdateAll(kind, store, wanted, d, order[..i + 1], api)
  {
    assert order[..i + 1][..i] == order[..i];
    if UpdateAll(kind, store, wanted, d, order[..i + 1], api).1 {
      UpdateStops(kind, store, wanted, d, order, i + 1, api);
    }
  }

  lemma {:induction false} UpdateStops(kind: Kind, store: Store, wanted: Wanted, d: Diff, order: seq<string>, k: nat,
                                       api: Api)
    requires k <= |order| && (forall s | s in order :: s in d.update && s in wanted)
        && UpdateAll(kind, store, wanted, d, order[..k], api).1
    ensures UpdateAll(kind, store, wanted, d, order, api) == UpdateAll(kind, store, wanted, d, order[..k], api)
    decreases |order|
  {
    if k == |order| {
      assert order[..k] == order;
    } else {
      assert order[..|order| - 1][..k] == order[..k];
      UpdateStops(kind, store, wanted, d, order[..|order| - 1], k, api);
    }
  }

  lemma {:induction false} UpdatesAreWanted(kind: Kind, store: Store, wanted: Wanted, listing: seq<string>)
    requires forall n | n in listing :: n in store
    ensures var d := DiffOf(kind, store, wanted, listing);
            (forall s | s in d.update :: s in wanted) && (forall s | s in d.create :: s in wanted)
  {
    if listing != [] {
      UpdatesAreWanted(kind, store, wanted, listing[..|listing| - 1]);
    }
  }
}
