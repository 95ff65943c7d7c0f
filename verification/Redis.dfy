/** The Redis handler (`handlers/task/redis_handler.go`): the same difference as for the other database
    tasks, with a database number reserved for every new task.  What the update branch computes is
    lost, so that an updated task is saved with number 0. */
module Redis {
  import opened Iteration
  import opened Jobs
  import T = TaskDiff

  datatype Reservation = Reservation(site: string, service: string, environment: string, number: nat, state: JobState)

  type Reservations = map<string, Reservation>

  /** The number of databases of each configured environment. */
  type Counts = map<string, nat>

  /** As database tasks, with the environment as what is compared. */
  function View(r: Reservations): T.Store {
    map n | n in r :: T.Record(r[n].site, r[n].service, [r[n].environment], r[n].state)
  }

  function EnvironmentOf(e: T.Expected): string {
    if e.content == [] then "" else e.content[0]
  }

  function InEnvironment(r: Reservations, environment: string): set<string> {
    set n | n in r && r[n].environment == environment
  }

  ghost predicate IsTaken(r: Reservations, environment: string, number: nat) {
    exists n :: n in r && r[n].environment == environment && r[n].number == number
  }

  // The allocator

  /** The least free number, if any is free. */
  ghost predicate IsFirstFree(r: Reservations, environment: string, count: nat, free: Option<nat>) {
    match free
    case Some(i) => i < count && !IsTaken(r, environment, i) && forall j | 0 <= j < i :: IsTaken(r, environment, j)
    case None => forall j | 0 <= j < count :: IsTaken(r, environment, j)
  }

  method GetFirstFreeDatabaseInEnvironment(r: Reservations, environment: string, count: nat, listing: seq<string>)
    returns (free: Option<nat>)
    requires IsOrderOf(listing, InEnvironment(r, environment))
    ensures IsFirstFree(r, environment, count, free)
  {
    var available: map<nat, bool> := map[];
    for i := 0 to count
      invariant forall j :: j in available <==> 0 <= j < i
      invariant forall j | j in available :: available[j]
    {
      available := available[i := true];
    }
    forall m | 0 <= m < |listing| ensures listing[m] in r {
      assert listing[m] in listing;
    }
    for k := 0 to |listing|
      invariant forall j | 0 <= j < count :: j in available
      invariant forall j | 0 <= j < count :: available[j] <==> !exists m :: 0 <= m < k && r[listing[m]].number == j
    {
      available := available[r[listing[k]].number := false];
    }
    ghost var taken := available;
    assert forall j | 0 <= j < count :: available[j] <==> !IsTaken(r, environment, j) by {
      forall j | 0 <= j < count ensures available[j] <==> !IsTaken(r, environment, j) {
        TakenIsListed(r, environment, listing, j);
      }
    }
    for i := 0 to count
      invariant forall j | 0 <= j < i :: IsTaken(r, environment, j)
    {
      if available[i] {
        return Some(i);
      }
    }
    free := None;
  }

  lemma TakenIsListed(r: Reservations, environment: string, listing: seq<string>, number: nat)
    requires IsOrderOf(listing, InEnvironment(r, environment))
    ensures forall m | 0 <= m < |listing| :: listing[m] in r
    ensures IsTaken(r, environment, number) <==> exists m :: 0 <= m < |listing| && r[listing[m]].number == number
  {
    forall m | 0 <= m < |listing| ensures listing[m] in r && r[listing[m]].environment == environment {
      assert listing[m] in listing;
    }
    if IsTaken(r, environment, number) {
      var n :| n in r && r[n].environment == environment && r[n].number == number;
      assert n in listing;
      var m :| 0 <= m < |listing| && listing[m] == n;
    }
  }

  function FirstFrom(r: Reservations, environment: string, count: nat, i: nat): Option<nat>
    requires i <= count
    decreases count - i
  {
    if i == count then None
    else if exists n | n in r ::
        r[n].environment == environment
        && r[n].number == i then FirstFrom(r, environment, count, i + 1)
    else Some(i)
  }

  lemma {:induction false} FirstFromIsFirst(r: Reservations, environment: string, count: nat, i: nat)
    requires i <= count && forall j | 0 <= j < i :: IsTaken(r, environment, j)
    ensures IsFirstFree(r, environment, count, FirstFrom(r, environment, count, i))
    decreases count - i
  {
    if i < count && IsTaken(r, environment, i) {
      FirstFromIsFirst(r, environment, count, i + 1);
    }
  }

  lemma FirstIsUnique(r: Reservations, environment: string, count: nat, a: Option<nat>, b: Option<nat>)
    requires IsFirstFree(r, environment, count, a) && IsFirstFree(r, environment, count, b)
    ensures a == b
  {
  }

  ghost predicate IsHeldIn(r: Reservations, names: set<string>, environment: string, number: nat) {
    exists n :: n in names && n in r && r[n].environment == environment && r[n].number == number
  }

  lemma {:induction false} HoldingNeedsAsMany(r: Reservations, names: set<string>, environment: string, count: nat)
    requires forall j | 0 <= j < count :: IsHeldIn(r, names, environment, j)
    ensures |names| >= count
  {
    if count > 0 {
      assert IsHeldIn(r, names, environment, count - 1);
      var n :| n in names && n in r && r[n].environment == environment && r[n].number == count - 1;
      forall j | 0 <= j < count - 1 ensures IsHeldIn(r, names - {n}, environment, j) {
        assert IsHeldIn(r, names, environment, j);
        var m :| m in names && m in r && r[m].environment == environment && r[m].number == j;
        assert m in names - {n};
      }
      HoldingNeedsAsMany(r, names - {n}, environment, count - 1);
    }
  }

  /** Pigeonholes: allocation fails for lack of space only when every number is taken, which takes as
      many reservations as there are databases. */
  lemma AllocationSucceeds(r: Reservations, environment: string, count: nat)
    requires |InEnvironment(r, environment)| < count
    ensures FirstFrom(r, environment, count, 0).Some?
  {
    FirstFromIsFirst(r, environment, count, 0);
    if FirstFrom(r, environment, count, 0) == None {
      forall j | 0 <= j < count ensures IsHeldIn(r, InEnvironment(r, environment), environment, j) {
        assert IsTaken(r, environment, j);
        var n :| n in r && r[n].environment == environment && r[n].number == j;
        assert n in InEnvironment(r, environment);
      }
      HoldingNeedsAsMany(r, InEnvironment(r, environment), environment, count);
    }
  }

  // Specification of a pass

  /** How the API calls of one pass end.  `lookUp` covers the config and the listing that the allocator
      reads, per service. */
  datatype Api = Api(read: bool, lookUp: string -> bool, delete: string -> Call, create: string -> Call,
                     update: string -> Call)

  /** The store, and the numbers in the status of the site. */
  datatype State = State(store: Reservations, numbers: map<string, nat>)

  function Allocate(r: Reservations, counts: Counts, environment: string, lookUp: bool): Option<nat> {
    if !lookUp || environment !in counts then None else FirstFrom(r, environment, counts[environment], 0)
  }

  function DeleteOne(s: State, d: T.Diff, service: string, api: Api): (State, bool)
    requires service in d.delete
  {
    (if api.delete(service) == Rejected then s else s.(store := s.store - {d.delete[service]}),
        api.delete(service) != Ok)
  }

  function CreateOne(s: State, counts: Counts, site: string, d: T.Diff, service: string, api: Api): (State, bool)
    requires service in d.create
  {
    var e := d.create[service];
    var number := Allocate(s.store, counts, EnvironmentOf(e), api.lookUp(service));
    if number == None || e.name in s.store then (s, true)
    else
      var stored := if api.create(service) == Rejected then s.store
          else s.store[e.name := Reservation(site, service, EnvironmentOf(e), number.value, Unset)];
      if api.create(service) != Ok then (s.(store := stored), true)
      else (State(stored, s.numbers[service := number.value]), false)
  }

  /** The number of the expected task is 0, and that is what is saved. */
  function UpdateOne(s: State, wanted: T.Wanted, d: T.Diff, service: string, api: Api): (State, bool)
    requires service in d.update && service in wanted
  {
    var name := d.update[service];
    if name !in s.store || name != wanted[service].name then (s, true)
    else
      var stored := if api.update(service) == Rejected then s.store
          else s.store[name := s.store[name].(environment := EnvironmentOf(wanted[service]), number := 0)];
      if api.update(service) != Ok then (s.(store := stored), true)
      else (State(stored, s.numbers[service := 0]), false)
  }

  function DeleteAll(s: State, d: T.Diff, order: seq<string>, api: Api): (State, bool)
    requires forall x | x in order :: x in d.delete
  {
    if order == [] then (s, false)
    else
      var (before, failed) := DeleteAll(s, d, order[..|order| - 1], api);
      if failed then (before, true) else DeleteOne(before, d, order[|order| - 1], api)
  }

  function CreateAll(s: State, counts: Counts, site: string, d: T.Diff, order: seq<string>, api: Api): (State, bool)
    requires forall x | x in order :: x in d.create
  {
    if order == [] then (s, false)
    else
      var (before, failed) := CreateAll(s, counts, site, d, order[..|order| - 1], api);
      if failed then (before, true) else CreateOne(before, counts, site, d, order[|order| - 1], api)
  }

  function UpdateAll(s: State, wanted: T.Wanted, d: T.Diff, order: seq<string>, api: Api): (State, bool)
    requires forall x | x in order :: x in d.update && x in wanted
  {
    if order == [] then (s, false)
    else
      var (before, failed) := UpdateAll(s, wanted, d, order[..|order| - 1], api);
      if failed then (before, true) else UpdateOne(before, wanted, d, order[|order| - 1], api)
  }

  predicate Fits(d: T.Diff, wanted: T.Wanted, o: T.Orders) {
    && (forall x | x in o.delete :: x in d.delete)
    && (forall x | x in o.create :: x in d.create)
    && (forall x | x in o.update :: x in d.update && x in wanted)
  }

  datatype Result = Result(s: State, complete: bool, failed: bool)

  predicate LacksNumber(s: State, counts: Counts, wanted: T.Wanted, o: T.Orders, api: Api)
    requires forall x | x in o.update :: x in wanted
  {
    exists x | x in o.update :: Allocate(s.store, counts, EnvironmentOf(wanted[x]), api.lookUp(x)) == None
  }

  /** While the difference is computed, every update looks for a free number, although it is not used. */
  function EnsureCreated(s: State, counts: Counts, site: string, wanted: T.Wanted, d: T.Diff, o: T.Orders,
                         api: Api): Result
    requires Fits(d, wanted, o)
  {
    if !api.read then Result(s, false, true)
    else if LacksNumber(s, counts, wanted, o, api) then Result(s, false, true)
    else
      var complete := d.delete == map[] && d.create == map[] && d.update == map[];
      var (deleted, failed) := DeleteAll(s, d, o.delete, api);
      if failed then Result(deleted, complete, true)
      else
        var (created, failed') := CreateAll(deleted, counts, site, d, o.create, api);
        if failed' then Result(created, complete, true)
        else
          var (updated, failed'') := UpdateAll(created, wanted, d, o.update, api);
          Result(updated, complete, failed'')
  }

  // The handler

  class RedisTaskHandler {
    const counts: Counts
    var store: Reservations
    var numbers: map<string, nat>

    constructor (counts: Counts, s: State)
      ensures this.counts == counts && Value() == s
    {
      this.counts := counts;
      store := s.store;
      numbers := s.numbers;
    }

    function Value(): State
      reads this
    {
      State(store, numbers)
    }

    method LookUp(environment: string, lookUp: bool) returns (number: Option<nat>)
      ensures number == Allocate(store, counts, environment, lookUp)
    {
      if !lookUp || environment !in counts {
        return None;
      }
      var listing := Walk(InEnvironment(store, environment));
      number := GetFirstFreeDatabaseInEnvironment(store, environment, counts[environment], listing);
      FirstFromIsFirst(store, environment, counts[environment], 0);
      FirstIsUnique(store, environment, counts[environment], number,
          FirstFrom(store, environment, counts[environment], 0));
    }

    method DeleteSurplus(d: T.Diff, order: seq<string>, api: Api) returns (failed: bool)
      requires forall x | x in order :: x in d.delete
      modifies this`store
      ensures (Value(), failed) == DeleteAll(old(Value()), d, order, api)
    {
      failed := false;
      for i := 0 to |order|
        invariant (Value(), false) == DeleteAll(old(Value()), d, order[..i], api)
      {
        DeleteOneMore(old(Value()), d, order, i, api);
        var x := order[i];
        if api.delete(x) != Rejected {
          store := store - {d.delete[x]};
        }
        if api.delete(x) != Ok {
          return true;
        }
      }
      assert order[..|order|] == order;
    }

    method CreateMissing(site: string, d: T.Diff, order: seq<string>, api: Api) returns (failed: bool)
      requires forall x | x in order :: x in d.create
      modifies this
      ensures (Value(), failed) == CreateAll(old(Value()), counts, site, d, order, api)
    {
      failed := false;
      for i := 0 to |order|
        invariant (Value(), false) == CreateAll(old(Value()), counts, site, d, order[..i], api)
      {
        CreateOneMore(old(Value()), counts, site, d, order, i, api);
        hide CreateAll, Allocate;
        var x := order[i];
        var e := d.create[x];
        var number := LookUp(EnvironmentOf(e), api.lookUp(x));
        if number == None || e.name in store {
          return true;
        }
        if api.create(x) != Rejected {
          store := store[e.name := Reservation(site, x, EnvironmentOf(e), number.value, Unset)];
        }
        if api.create(x) != Ok {
          return true;
        }
        numbers := numbers[x := number.value];
      }
      assert order[..|order|] == order;
    }

    method UpdateMismatched(wanted: T.Wanted, d: T.Diff, order: seq<string>, api: Api) returns (failed: bool)
      requires forall x | x in order :: x in d.update && x in wanted
      modifies this
      ensures (Value(), failed) == UpdateAll(old(Value()), wanted, d, order, api)
    {
      failed := false;
      for i := 0 to |order|
        invariant (Value(), false) == UpdateAll(old(Value()), wanted, d, order[..i], api)
      {
        UpdateOneMore(old(Value()), wanted, d, order, i, api);
        hide UpdateAll;
        var x := order[i];
        var name := d.update[x];
        if name !in store || name != wanted[x].name {
          return true;
        }
        if api.update(x) != Rejected {
          store := store[name := store[name].(environment := EnvironmentOf(wanted[x]), number := 0)];
        }
        if api.update(x) != Ok {
          return true;
        }
        numbers := numbers[x := 0];
      }
      assert order[..|order|] == order;
    }

    /** Every update looks for a number that it then does not use. */
    method LookUpForUpdates(wanted: T.Wanted, order: seq<string>, api: Api) returns (lacking: bool)
      requires forall x | x in order :: x in wanted
      ensures lacking <==> exists x | x in order ::
          Allocate(store, counts, EnvironmentOf(wanted[x]), api.lookUp(x)) ==
          None
    {
      hide Allocate;
      for i := 0 to |order|
        invariant forall j | 0 <= j < i :: Allocate(store, counts, EnvironmentOf(wanted[order[j]]),
            api.lookUp(order[j])) != None
      {
        var free := LookUp(EnvironmentOf(wanted[order[i]]), api.lookUp(order[i]));
        if free == None {
          assert order[i] in order;
          return true;
        }
      }
      lacking := false;
    }

    /** The difference is computed as for the other database tasks. */
    method EnsureDatabasesAreCreated(site: string, wanted: T.Wanted, listing: seq<string>, o: T.Orders, api: Api)
      returns (complete: bool, failed: bool)
      requires IsOrderOf(listing, T.OfSite(View(store), site))
      requires T.AreOrders(o, T.DiffOf(T.Databases, View(store), wanted, listing))
      modifies this
      ensures forall n | n in listing :: n in View(old(store))
      ensures var d := T.DiffOf(T.Databases, View(old(store)), wanted, listing);
              Fits(d, wanted, o) && Result(Value(), complete, failed) ==
                  EnsureCreated(old(Value()), counts, site, wanted, d, o, api)
    {
      hide DeleteAll, CreateAll, UpdateAll, Allocate, View;
      T.UpdatesAreWanted(T.Databases, View(store), wanted, listing);
      var tasks := new T.TaskHandler(T.Databases, View(store));
      var d := tasks.Compare(wanted, listing);
      assert Fits(d, wanted, o);
      if !api.read {
        return false, true;
      }
      var lacking := LookUpForUpdates(wanted, o.update, api);
      assert lacking == LacksNumber(Value(), counts, wanted, o, api);
      if lacking {
        return false, true;
      }
      hide LacksNumber;
      complete := d.delete == map[] && d.create == map[] && d.update == map[];
      failed := DeleteSurplus(d, o.delete, api);
      if failed {
        return;
      }
      failed := CreateMissing(site, d, o.create, api);
      if failed {
        return;
      }
      failed := UpdateMismatched(wanted, d, o.update, api);
    }
  }

  lemma DeleteOneMore(s: State, d: T.Diff, order: seq<string>, i: nat, api: Api)
    requires i < |order| && (forall x | x in order :: x in d.delete) && !DeleteAll(s, d, order[..i], api).1
    ensures DeleteAll(s, d, order[..i + 1], api) == DeleteOne(DeleteAll(s, d, order[..i], api).0, d, order[i], api)
    ensures DeleteAll(s, d, order[..i + 1], api).1 ==>
        DeleteAll(s, d, order, api) ==
        DeleteAll(s, d, order[..i + 1], api)
  {
    assert order[..i + 1][..i] == order[..i];
    if DeleteAll(s, d, order[..i + 1], api).1 {
      DeleteStops(s, d, order, i + 1, api);
    }
  }

  lemma {:induction false} DeleteStops(s: State, d: T.Diff, order: seq<string>, k: nat, api: Api)
    requires k <= |order| && (forall x | x in order :: x in d.delete) && DeleteAll(s, d, order[..k], api).1
    ensures DeleteAll(s, d, order, api) == DeleteAll(s, d, order[..k], api)
    decreases |order|
  {
    if k == |order| {
      assert order[..k] == order;
    } else {
      assert order[..|order| - 1][..k] == order[..k];
      DeleteStops(s, d, order[..|order| - 1], k, api);
    }
  }

  lemma CreateOneMore(s: State, counts: Counts, site: string, d: T.Diff, order: seq<string>, i: nat, api: Api)
    requires i < |order| && (forall x | x in order :: x in d.create)
        && !CreateAll(s, counts, site, d, order[..i], api).1
    ensures CreateAll(s, counts, site, d, order[..i + 1], api) ==
        CreateOne(CreateAll(s, counts, site, d, order[..i], api).0, counts, site, d, order[i], api)
    ensures CreateAll(s, counts, site, d, order[..i + 1], api).1
        ==> CreateAll(s, counts, site, d, order, api) == CreateAll(s, counts, site, d, order[..i + 1], api)
  {
    hide CreateOne;
    assert order[..i + 1][..i] == order[..i];
    if CreateAll(s, counts, site, d, order[..i + 1], api).1 {
      CreateStops(s, counts, site, d, order, i + 1, api);
    }
  }

  lemma {:induction false} CreateStops(s: State, counts: Counts, site: string, d: T.Diff, order: seq<string>, k: nat,
                                       api: Api)
    requires k <= |order| && (forall x | x in order :: x in d.create)
        && CreateAll(s, counts, site, d, order[..k], api).1
    ensures CreateAll(s, counts, site, d, order, api) == CreateAll(s, counts, site, d, order[..k], api)
    decreases |order|
  {
    hide CreateOne;
    if k == |order| {
      assert order[..k] == order;
    } else {
      assert order[..|order| - 1][..k] == order[..k];
      CreateStops(s, counts, site, d, order[..|order| - 1], k, api);
    }
  }

  lemma UpdateOneMore(s: State, wanted: T.Wanted, d: T.Diff, order: seq<string>, i: nat, api: Api)
    requires i < |order| && (forall x | x in order :: x in d.update && x in wanted)
        && !UpdateAll(s, wanted, d, order[..i], api).1
    ensures UpdateAll(s, wanted, d, order[..i + 1], api) ==
        UpdateOne(UpdateAll(s, wanted, d, order[..i], api).0, wanted, d, order[i], api)
    ensures UpdateAll(s, wanted, d, order[..i + 1], api).1
        ==> UpdateAll(s, wanted, d, order, api) == UpdateAll(s, wanted, d, order[..i + 1], api)
  {
    assert order[..i + 1][..i] == order[..i];
    if UpdateAll(s, wanted, d, order[..i + 1], api).1 {
      UpdateStops(s, wanted, d, order, i + 1, api);
    }
  }

  lemma {:induction false} UpdateStops(s: State, wanted: T.Wanted, d: T.Diff, order: seq<string>, k: nat, api: Api)
    requires k <= |order| && (forall x | x in order :: x in d.update && x in wanted)
        && UpdateAll(s, wanted, d, order[..k], api).1
    ensures UpdateAll(s, wanted, d, order, api) == UpdateAll(s, wanted, d, order[..k], api)
    decreases |order|
  {
    if k == |order| {
      assert order[..k] == order;
    } else {
      assert order[..|order| - 1][..k] == order[..k];
      UpdateStops(s, wanted, d, order[..|order| - 1], k, api);
    }
  }

  // Distinct numbers

  /** In every environment the reservations hold different numbers of existing databases. */
  ghost predicate IsAllocated(r: Reservations, counts: Counts) {
    && (forall n | n in r :: r[n].environment in counts && r[n].number < counts[r[n].environment])
    && (forall a, b | a in r && b in r && a != b && r[a].environment == r[b].environment :: r[a].number != r[b].number)
  }

  lemma CreateOneAllocates(s: State, counts: Counts, site: string, d: T.Diff, service: string, api: Api)
    requires service in d.create && IsAllocated(s.store, counts)
    ensures IsAllocated(CreateOne(s, counts, site, d, service, api).0.store, counts)
  {
    var e := d.create[service];
    if EnvironmentOf(e) in counts {
      FirstFromIsFirst(s.store, EnvironmentOf(e), counts[EnvironmentOf(e)], 0);
    }
    hide FirstFrom;
  }

  lemma {:induction false} CreateAllAllocates(s: State, counts: Counts, site: string, d: T.Diff, order: seq<string>,
                                              api: Api)
    requires (forall x | x in order :: x in d.create) && IsAllocated(s.store, counts)
    ensures IsAllocated(CreateAll(s, counts, site, d, order, api).0.store, counts)
  {
    hide IsAllocated, CreateOne;
    if order != [] {
      CreateAllAllocates(s, counts, site, d, order[..|order| - 1], api);
      CreateOneAllocates(CreateAll(s, counts, site, d, order[..|order| - 1], api).0, counts, site, d,
          order[|order| - 1], api);
    }
  }

  lemma DeleteOneAllocates(s: State, counts: Counts, d: T.Diff, service: string, api: Api)
    requires service in d.delete
    ensures IsAllocated(s.store, counts) ==> IsAllocated(DeleteOne(s, d, service, api).0.store, counts)
  {
  }

  lemma {:induction false} DeleteAllAllocates(s: State, counts: Counts, d: T.Diff, order: seq<string>, api: Api)
    requires (forall x | x in order :: x in d.delete) && IsAllocated(s.store, counts)
    ensures IsAllocated(DeleteAll(s, d, order, api).0.store, counts)
  {
    hide IsAllocated, DeleteOne;
    if order != [] {
      DeleteOneAllocates(DeleteAll(s, d, order[..|order| - 1], api).0, counts, d, order[|order| - 1], api);
      DeleteAllAllocates(s, counts, d, order[..|order| - 1], api);
    }
  }

  lemma PassAllocates(s: State, counts: Counts, site: string, wanted: T.Wanted, d: T.Diff, o: T.Orders, api: Api)
    requires Fits(d, wanted, o) && d.update == map[] && IsAllocated(s.store, counts)
    ensures IsAllocated(EnsureCreated(s, counts, site, wanted, d, o, api).s.store, counts)
  {
    hide IsAllocated, DeleteAll, CreateAll;
    NoUpdates(d, wanted, o);
    DeleteAllAllocates(s, counts, d, o.delete, api);
    CreateAllAllocates(DeleteAll(s, d, o.delete, api).0, counts, site, d, o.create, api);
  }

  lemma NoUpdates(d: T.Diff, wanted: T.Wanted, o: T.Orders)
    requires Fits(d, wanted, o) && d.update == map[]
    ensures o.update == []
  {
    assert ToSet(o.update) == {};
    FirstIn(o.update);
  }

  lemma FirstIn(order: seq<string>)
    ensures order != [] ==> order[0] in ToSet(order)
  {
  }

  // Runs over any number of sites

  datatype Event =
    | Pass(site: string, wanted: T.Wanted, listing: seq<string>, orders: T.Orders, api: Api)
    | Grow(environment: string, count: nat)                          // a config is added or gets more databases
    | Discard(name: string)                                          // a task goes, with its site or by hand

  datatype World = World(s: State, counts: Counts)

  /** Walks are walks, and counts do not shrink. */
  ghost predicate IsEvent(w: World, e: Event) {
    match e
    case Pass(site, wanted, listing, o, _) =>
      && IsOrderOf(listing, T.OfSite(View(w.s.store), site))
      && var d := T.DiffOf(T.Databases, View(w.s.store), wanted, listing);
         T.AreOrders(o, d) && Fits(d, wanted, o)
    case Grow(environment, count) => environment in w.counts ==> w.counts[environment] <= count
    case Discard(_) => true
  }

  ghost function Next(w: World, e: Event): World {
    match e
    case Pass(site, wanted, listing, o, api) =>
      if IsEvent(w, e)
      then w.(s := EnsureCreated(w.s, w.counts, site, wanted, T.DiffOf(T.Databases, View(w.s.store), wanted, listing),
          o, api).s)
      else w
    case Grow(environment, count) => if IsEvent(w, e) then w.(counts := w.counts[environment := count]) else w
    case Discard(name) => w.(s := w.s.(store := w.s.store - {name}))
  }

  ghost function Run(events: seq<Event>): World {
    if events == [] then World(State(map[], map[]), map[])
    else Next(Run(events[..|events| - 1]), events[|events| - 1])
  }

  /** The event is no pass that finds something to update. */
  ghost predicate UpdatesNothing(w: World, e: Event) {
    e.Pass? && IsEvent(w, e) ==> T.DiffOf(T.Databases, View(w.s.store), e.wanted, e.listing).update == map[]
  }

  ghost predicate NeverUpdates(events: seq<Event>) {
    forall i | 0 <= i < |events| :: UpdatesNothing(Run(events[..i]), events[i])
  }

  lemma StepAllocates(w: World, e: Event)
    requires IsAllocated(w.s.store, w.counts) && UpdatesNothing(w, e)
    ensures IsAllocated(Next(w, e).s.store, Next(w, e).counts)
  {
    if e.Pass? && IsEvent(w, e) {
      var d := T.DiffOf(T.Databases, View(w.s.store), e.wanted, e.listing);
      PassAllocates(w.s, w.counts, e.site, e.wanted, d, e.orders, e.api);
      hide IsAllocated;
    }
  }

  /** In every run of create and delete passes over any number of sites, whatever fails, with tasks
      removed at any time and counts that do not shrink. */
  lemma {:induction false} NumbersAreDistinct(events: seq<Event>)
    requires NeverUpdates(events)
    ensures IsAllocated(Run(events).s.store, Run(events).counts)
  {
    if events != [] {
      var front := events[..|events| - 1];
      assert forall i | 0 <= i < |front| :: front[..i] == events[..i] && front[i] == events[i];
      NumbersAreDistinct(front);
      assert UpdatesNothing(Run(front), events[|events| - 1]);
      StepAllocates(Run(front), events[|events| - 1]);
      hide IsAllocated;
    }
  }

  // With updates

  /** Numbers of existing databases, of which at most number 0 is shared. */
  ghost predicate SharesOnlyZero(r: Reservations, counts: Counts) {
    && (forall n | n in r :: r[n].environment in counts && r[n].number < counts[r[n].environment])
    && (forall a, b | a in r && b in r && a != b && r[a].environment == r[b].environment
        && r[a].number == r[b].number :: r[a].number == 0)
  }

  lemma CreateOneShares(s: State, counts: Counts, site: string, d: T.Diff, service: string, api: Api)
    requires service in d.create && SharesOnlyZero(s.store, counts)
    ensures SharesOnlyZero(CreateOne(s, counts, site, d, service, api).0.store, counts)
  {
    var e := d.create[service];
    if EnvironmentOf(e) in counts {
      FirstFromIsFirst(s.store, EnvironmentOf(e), counts[EnvironmentOf(e)], 0);
    }
    hide FirstFrom;
  }

  lemma {:induction false} CreateAllShares(s: State, counts: Counts, site: string, d: T.Diff, order: seq<string>,
                                           api: Api)
    requires (forall x | x in order :: x in d.create) && SharesOnlyZero(s.store, counts)
    ensures SharesOnlyZero(CreateAll(s, counts, site, d, order, api).0.store, counts)
  {
    hide SharesOnlyZero, CreateOne;
    if order != [] {
      var front := order[..|order| - 1];
      CreateAllShares(s, counts, site, d, front, api);
      CreateOneShares(CreateAll(s, counts, site, d, front, api).0, counts, site, d, order[|order| - 1], api);
    }
  }

  lemma DeleteOneShares(s: State, counts: Counts, d: T.Diff, service: string, api: Api)
    requires service in d.delete
    ensures SharesOnlyZero(s.store, counts) ==> SharesOnlyZero(DeleteOne(s, d, service, api).0.store, counts)
  {
  }

  lemma {:induction false} DeleteAllShares(s: State, counts: Counts, d: T.Diff, order: seq<string>, api: Api)
    requires (forall x | x in order :: x in d.delete) && SharesOnlyZero(s.store, counts)
    ensures SharesOnlyZero(DeleteAll(s, d, order, api).0.store, counts)
  {
    hide SharesOnlyZero, DeleteOne;
    if order != [] {
      var front := order[..|order| - 1];
      DeleteAllShares(s, counts, d, front, api);
      DeleteOneShares(DeleteAll(s, d, front, api).0, counts, d, order[|order| - 1], api);
    }
  }

  ghost predicate HasDatabases(counts: Counts, environment: string) {
    environment in counts && counts[environment] > 0
  }

  lemma UpdateOneShares(s: State, counts: Counts, wanted: T.Wanted, d: T.Diff, service: string, api: Api)
    requires service in d.update && service in wanted && HasDatabases(counts, EnvironmentOf(wanted[service]))
    requires SharesOnlyZero(s.store, counts)
    ensures SharesOnlyZero(UpdateOne(s, wanted, d, service, api).0.store, counts)
  {
  }

  lemma {:induction false} UpdateAllShares(s: State, counts: Counts, wanted: T.Wanted, d: T.Diff, order: seq<string>,
                                           api: Api)
    requires forall x | x in order :: x in d.update && x in wanted && HasDatabases(counts, EnvironmentOf(wanted[x]))
    requires SharesOnlyZero(s.store, counts)
    ensures SharesOnlyZero(UpdateAll(s, wanted, d, order, api).0.store, counts)
  {
    hide SharesOnlyZero, UpdateOne, HasDatabases;
    if order != [] {
      var front := order[..|order| - 1];
      UpdateAllShares(s, counts, wanted, d, front, api);
      UpdateOneShares(UpdateAll(s, wanted, d, front, api).0, counts, wanted, d, order[|order| - 1], api);
    }
  }

  /** The number that is looked up and thrown away at least shows that there is a database 0. */
  lemma LookUpFindsDatabases(s: State, counts: Counts, wanted: T.Wanted, o: T.Orders, api: Api)
    requires (forall x | x in o.update :: x in wanted) && !LacksNumber(s, counts, wanted, o, api)
    ensures forall x | x in o.update :: HasDatabases(counts, EnvironmentOf(wanted[x]))
  {
    forall x | x in o.update ensures HasDatabases(counts, EnvironmentOf(wanted[x])) {
      assert Allocate(s.store, counts, EnvironmentOf(wanted[x]), api.lookUp(x)) != None;
    }
  }

  lemma PassShares(s: State, counts: Counts, site: string, wanted: T.Wanted, d: T.Diff, o: T.Orders, api: Api)
    requires Fits(d, wanted, o) && SharesOnlyZero(s.store, counts)
    ensures SharesOnlyZero(EnsureCreated(s, counts, site, wanted, d, o, api).s.store, counts)
  {
    hide SharesOnlyZero, DeleteAll, CreateAll, UpdateAll, HasDatabases, LacksNumber, EnvironmentOf;
    if !LacksNumber(s, counts, wanted, o, api) {
      LookUpFindsDatabases(s, counts, wanted, o, api);
      DeleteAllShares(s, counts, d, o.delete, api);
      var deleted := DeleteAll(s, d, o.delete, api).0;
      CreateAllShares(deleted, counts, site, d, o.create, api);
      UpdateAllShares(CreateAll(deleted, counts, site, d, o.create, api).0, counts, wanted, d, o.update, api);
    }
  }

  lemma StepShares(w: World, e: Event)
    requires SharesOnlyZero(w.s.store, w.counts)
    ensures SharesOnlyZero(Next(w, e).s.store, Next(w, e).counts)
  {
    if e.Pass? && IsEvent(w, e) {
      var d := T.DiffOf(T.Databases, View(w.s.store), e.wanted, e.listing);
      PassShares(w.s, w.counts, e.site, e.wanted, d, e.orders, e.api);
      hide SharesOnlyZero;
    }
  }

  /** In every run, updates included: two tasks of one environment that hold the same number both hold
      number 0, and every number is one of an existing database. */
  lemma {:induction false} OnlyZeroIsShared(events: seq<Event>)
    ensures SharesOnlyZero(Run(events).s.store, Run(events).counts)
  {
    if events != [] {
      OnlyZeroIsShared(events[..|events| - 1]);
      StepShares(Run(events[..|events| - 1]), events[|events| - 1]);
      hide SharesOnlyZero;
    }
  }

  /** An update saves number 0: the numbers stay distinct exactly when no other task of the new
      environment holds it. */
  lemma UpdateKeepsDistinctExactly(s: State, counts: Counts, wanted: T.Wanted, d: T.Diff, service: string, api: Api)
    requires IsAllocated(s.store, counts) && service in d.update && service in wanted && api.update(service) != Rejected
    requires d.update[service] in s.store && d.update[service] == wanted[service].name
    requires EnvironmentOf(wanted[service]) in counts && counts[EnvironmentOf(wanted[service])] > 0
    ensures var after := UpdateOne(s, wanted, d, service, api).0.store;
            && after[wanted[service].name].number == 0
            && (IsAllocated(after, counts) <==>
                  forall n | n in s.store && n != wanted[service].name
                      && s.store[n].environment == EnvironmentOf(wanted[service]) :: s.store[n].number != 0)
  {
    var after, name := UpdateOne(s, wanted, d, service, api).0.store, wanted[service].name;
    if IsAllocated(after, counts) {
      forall n | n in s.store && n != name && s.store[n].environment ==
          EnvironmentOf(wanted[service]) ensures s.store[n].number != 0 {
        assert after[n] == s.store[n] && after[name].environment == after[n].environment;
      }
    }
  }

  /** The services in `done` have the numbers of their reservations in the status of the site. */
  ghost predicate HasNumbers(s: State, d: T.Diff, done: set<string>, after: State)
    requires forall x | x in done :: x in d.create
  {
    && (forall x | x in done ::
        x in after.numbers && d.create[x].name in after.store
        && after.store[d.create[x].name].number == after.numbers[x])
    && (forall x | x !in done ::
        (x in s.numbers <==> x in after.numbers)
        && (x in s.numbers ==> after.numbers[x] == s.numbers[x]))
    && (forall n | n in s.store :: n in after.store && after.store[n] == s.store[n])
  }

  lemma CreateOneHasNumber(s: State, counts: Counts, site: string, d: T.Diff, done: set<string>, mid: State,
                           service: string, api: Api)
    requires (forall x | x in done :: x in d.create) && service in d.create && service !in done
    requires HasNumbers(s, d, done, mid) && !CreateOne(mid, counts, site, d, service, api).1
    ensures HasNumbers(s, d, done + {service}, CreateOne(mid, counts, site, d, service, api).0)
  {
    hide Allocate;
  }

  /** A pass that is not cut short leaves in the status of the site the numbers it has reserved, and
      the other numbers and reservations as they were. */
  lemma {:induction false} StatusHasTheNumbers(s: State, counts: Counts, site: string, d: T.Diff, order: seq<string>,
                                               api: Api)
    requires (forall x | x in order :: x in d.create) && !CreateAll(s, counts, site, d, order, api).1
    requires IsOrderOf(order, ToSet(order))
    ensures HasNumbers(s, d, ToSet(order), CreateAll(s, counts, site, d, order, api).0)
  {
    hide CreateOne, HasNumbers;
    if order == [] {
      HasNoNumbers(s, d);
      assert ToSet(order) == {};
    } else {
      var front, last := order[..|order| - 1], order[|order| - 1];
      StatusHasTheNumbers(s, counts, site, d, front, api);
      CreateOneHasNumber(s, counts, site, d, ToSet(front), CreateAll(s, counts, site, d, front, api).0, last, api);
      assert ToSet(order) == ToSet(front) + {last};
    }
  }

  lemma HasNoNumbers(s: State, d: T.Diff)
    ensures HasNumbers(s, d, {}, s)
  {
  }
}
