/** The MySQL task controller (`controllers/task/mysqldatabase_controller.go`): a finalizer keeps the
    task object for as long as its user or database may exist. */
module MysqlTask {
  import opened Iteration
  import opened Jobs
  import opened Names
  import opened MysqlServer

  const MYSQL_FINALIZER := "mysql.task.finalizers.operator.kube-stager.io"

  datatype Object = Object(finalizers: seq<string>, deleting: bool, complete: bool)

  /** How the calls of one pass end; `config` is whether the environment's config can be read. */
  datatype Api = Api(get: bool, config: bool, sql: Sql, update: Call, save: Call)

  /** The API server drops a deleted object with its last finalizer. */
  function Stored(o: Object): Option<Object> {
    if o.deleting && o.finalizers == [] then None else Some(o)
  }

  datatype World = World(entry: Option<Object>, server: Server)

  // Specification of a pass

  function Update(w: World, o: Object, update: Call, outcome: Outcome): (World, Outcome) {
    (if update == Rejected then w else w.(entry := Stored(o)), if update == Ok then outcome else Error)
  }

  ghost function DeletePass(w: World, o: Object, t: Task, api: Api): (World, Outcome) {
    if !api.sql.open then (w, Error)
    else
      var (server, failed) := DeleteTask(w.server, t, api.sql);
      var w' := w.(server := server);
      if failed then (w', Error)
      else if MYSQL_FINALIZER !in o.finalizers then (w', Quiet)
      else Update(w', o.(finalizers := Without(o.finalizers, MYSQL_FINALIZER)), api.update, Quiet)
  }

  function ReconcilePass(w: World, o: Object, t: Task, api: Api): (World, Outcome) {
    if !api.sql.open then (w, Error)
    else
      var (server, failed) := ReconcileTask(w.server, t, api.sql);
      var w' := w.(server := server);
      if failed then (w', Error)
      else if o.complete then (w', Quiet)
      else Update(w', o.(complete := true), api.save, Quiet)
  }

  ghost function TaskPass(w: World, t: Task, api: Api): (World, Outcome) {
    if !api.get then (w, Error)
    else if w.entry == None then (w, Quiet)
    else if !api.config then (w, Error)
    else
      var o := w.entry.value;
      if o.deleting then DeletePass(w, o, t, api)
      else if MYSQL_FINALIZER !in o.finalizers then Update(w, o.(finalizers := o.finalizers + [MYSQL_FINALIZER]),
          api.update, Requeue)
      else ReconcilePass(w, o, t, api)
  }

  // The controller

  class MysqlDatabaseReconciler {
    const task: Task
    var entry: Option<Object>
    var server: Server

    constructor (task: Task, w: World)
      ensures this.task == task && Value() == w
    {
      this.task := task;
      entry := w.entry;
      server := w.server;
    }

    function Value(): World
      reads this
    {
      World(entry, server)
    }

    method Write(o: Object, update: Call, result: Outcome) returns (outcome: Outcome)
      modifies this`entry
      ensures (Value(), outcome) == Update(old(Value()), o, update, result)
    {
      if update != Rejected {
        entry := if o.deleting && o.finalizers == [] then None else Some(o);
      }
      outcome := if update == Ok then result else Error;
    }

    method Delete(o: Object, api: Api) returns (outcome: Outcome)
      modifies this
      ensures (Value(), outcome) == DeletePass(old(Value()), o, task, api)
    {
      if !api.sql.open {
        return Error;
      }
      var handler := new MysqlReconcileTask(task, server);
      var failed := handler.Delete(api.sql);
      server := handler.server;
      if failed {
        return Error;
      }
      var finalizers := RemoveStringFromSlice(o.finalizers, MYSQL_FINALIZER);
      if |finalizers| != |o.finalizers| {
        outcome := Write(o.(finalizers := finalizers), api.update, Quiet);
        return;
      }
      outcome := Quiet;
    }

    method DoReconcile(api: Api) returns (outcome: Outcome)
      modifies this
      ensures (Value(), outcome) == TaskPass(old(Value()), task, api)
    {
      hide DeleteTask, ReconcileTask, Without;
      if !api.get {
        return Error;
      }
      if entry == None {
        return Quiet;
      }
      if !api.config {
        return Error;
      }
      var o := entry.value;
      if o.deleting {
        outcome := Delete(o, api);
        return;
      }
      var present := SliceContainsString(o.finalizers, MYSQL_FINALIZER);
      if !present {
        outcome := Write(o.(finalizers := o.finalizers + [MYSQL_FINALIZER]), api.update, Requeue);
        return;
      }
      if !api.sql.open {
        return Error;
      }
      var handler := new MysqlReconcileTask(task, server);
      var failed := handler.Reconcile(api.sql);
      server := handler.server;
      if failed {
        return Error;
      }
      if o.complete {
        return Quiet;
      }
      outcome := Write(o.(complete := true), api.save, Quiet);
    }
  }

  // Runs

  datatype Event =
    | Pass(api: Api)
    | Submit
    | MarkDeleted
    | OtherFinalizers(finalizers: seq<string>)                       // by other controllers
    | OtherWork(server: Server)                                      // what others do on the server

  /** The user or the database of the task may exist. */
  ghost predicate MayExist(s: Server, t: Task) {
    t.username in s.users || t.database in s.databases
  }

  /** Others neither create this user and database nor touch this finalizer. */
  ghost function Next(w: World, t: Task, e: Event): World {
    match e
    case Pass(api) => TaskPass(w, t, api).0
    case Submit => if w.entry == None then w.(entry := Some(Object([], false, false))) else w
    case MarkDeleted => if w.entry.Some? then w.(entry := Stored(w.entry.value.(deleting := true))) else w
    case OtherFinalizers(finalizers) =>
      if w.entry.Some? && (MYSQL_FINALIZER in finalizers <==> MYSQL_FINALIZER in w.entry.value.finalizers)
      then w.(entry := Stored(w.entry.value.(finalizers := finalizers))) else w
    case OtherWork(server) =>
      if (t.username in server.users ==> t.username in w.server.users)
          && (t.database in server.databases ==> t.database in w.server.databases)
      then w.(server := server) else w
  }

  ghost function Run(t: Task, start: Server, events: seq<Event>): World {
    if events == [] then World(None, start)
    else Next(Run(t, start, events[..|events| - 1]), t, events[|events| - 1])
  }

  ghost predicate IsGuarded(w: World, t: Task) {
    MayExist(w.server, t) ==> w.entry.Some? && MYSQL_FINALIZER in w.entry.value.finalizers
  }

  lemma {:induction false} RevokeAllKeeps(s: Server, t: Task, rows: seq<string>, keep: Option<string>, sql: Sql)
    ensures var after := RevokeAll(s, t, rows, keep, sql).0; after.users == s.users && after.databases == s.databases
  {
    if rows != [] {
      RevokeAllKeeps(s, t, rows[..|rows| - 1], keep, sql);
    }
  }

  /** Success leaves neither the user nor the database, failure adds neither. */
  lemma DeleteTaskMeans(s: Server, t: Task, sql: Sql)
    ensures var (after, failed) := DeleteTask(s, t, sql);
            && (!failed && t.username != "" ==> !MayExist(after, t))
            && (!failed ==> t.database !in after.databases)
            && after.users.Keys <= s.users.Keys && after.databases <= s.databases
  {
    RevokeAllKeeps(RemoveUser(s, t, sql).0, t, RowsRead(t, sql), None, sql);
    hide RevokeAll;
  }

  /** An empty name is never created. */
  lemma ReconcileTaskMeans(s: Server, t: Task, sql: Sql)
    ensures t.username == "" && "" in ReconcileTask(s, t, sql).0.users ==> "" in s.users
  {
    var mid := ReconcileDatabase(ReconcileUser(s, t, sql).0, t, sql).0;
    RevokeAllKeeps(mid, t, RowsRead(t, sql), Some(t.database), sql);
    hide RevokeAll;
  }

  lemma PassKeepsGuard(w: World, t: Task, api: Api)
    requires IsGuarded(w, t) && (t.username == "" ==> "" !in w.server.users)
    ensures var w' := TaskPass(w, t, api).0;
            IsGuarded(w', t) && (t.username == "" ==> "" !in w'.server.users)
  {
    DeleteTaskMeans(w.server, t, api.sql);
    ReconcileTaskMeans(w.server, t, api.sql);
    hide DeleteTask, ReconcileTask;
  }

  lemma StepKeepsGuard(w: World, t: Task, e: Event)
    requires IsGuarded(w, t) && (t.username == "" ==> "" !in w.server.users)
    ensures IsGuarded(Next(w, t, e), t) && (t.username == "" ==> "" !in Next(w, t, e).server.users)
  {
    if e.Pass? {
      PassKeepsGuard(w, t, e.api);
    } else {
      hide TaskPass;
    }
  }

  /** In every run with a fixed task, with a failure at any call and any statement: whenever the user or
      the database of the task may exist, the task object exists and carries the finalizer. */
  lemma {:induction false} NoOrphans(t: Task, start: Server, events: seq<Event>)
    requires !MayExist(start, t)
    ensures var w := Run(t, start, events);
            && (MayExist(w.server, t) ==> w.entry.Some? && MYSQL_FINALIZER in w.entry.value.finalizers)
            && (t.username == "" ==> "" !in w.server.users)
  {
    if events != [] {
      hide Next;
      NoOrphans(t, start, events[..|events| - 1]);
      StepKeepsGuard(Run(t, start, events[..|events| - 1]), t, events[|events| - 1]);
    }
  }

  /** A pass takes the finalizer off exactly when the object is deleted, everything on the server has been
      removed in that pass and the update goes through; the other finalizers keep their order. */
  lemma ReleaseExactly(w: World, t: Task, api: Api)
    requires w.entry.Some? && MYSQL_FINALIZER in w.entry.value.finalizers
    ensures var o, w' := w.entry.value, TaskPass(w, t, api).0;
            && ((w'.entry == None || MYSQL_FINALIZER !in w'.entry.value.finalizers) <==>
                  && api.get && api.config && o.deleting && api.sql.open
                  && !DeleteTask(w.server, t, api.sql).1 && api.update != Rejected)
            && (w'.entry.Some? ==>
                w'.entry.value.finalizers == o.finalizers
                || w'.entry.value.finalizers == Without(o.finalizers, MYSQL_FINALIZER))
            && (w'.entry == None ==> forall f | f in o.finalizers :: f == MYSQL_FINALIZER)
  {
    hide DeleteTask, ReconcileTask;
    var o := w.entry.value;
    if Without(o.finalizers, MYSQL_FINALIZER) == [] {
      forall f | f in o.finalizers ensures f == MYSQL_FINALIZER {
        assert multiset(o.finalizers)[f] > 0;
      }
    }
  }

  // What a complete task has on the server

  /** The user with the password, the database, and the grant of the one on the other. */
  ghost predicate IsServed(s: Server, t: Task) {
    && t.username in s.users && s.users[t.username] == t.password
    && t.database in s.databases && Grant(t.username, t.database) in s.grants
  }

  /** A pass that turns the task complete has seen to it that everything is there, and nothing of others
      has changed. */
  lemma CompletingServes(w: World, t: Task, api: Api)
    requires t.username != "" && IsSql(w.server, t.username, api.sql) && w.entry.Some? && !w.entry.value.complete
    ensures var w' := TaskPass(w, t, api).0;
            w'.entry.Some? && w'.entry.value.complete ==> IsServed(w'.server, t) && OthersKeep(w.server, w'.server, t)
  {
    hide DeleteTask, ReconcileTask, IsSql, Without, OthersKeep;
    if !ReconcileTask(w.server, t, api.sql).1 {
      ReconcileConverges(w.server, t, api.sql);
    }
  }

  /** The rows that the passes of a run read are grants of the user. */
  ghost predicate RowsAreReal(t: Task, start: Server, events: seq<Event>) {
    forall i | 0 <= i < |events| && events[i].Pass? ::
      IsSql(Run(t, start, events[..i]).server, t.username, events[i].api.sql)
  }

  ghost predicate WasServed(t: Task, start: Server, events: seq<Event>, k: nat) {
    k <= |events| && IsServed(Run(t, start, events[..k]).server, t)
  }

  /** In every run: when the task object says that it is complete, everything was there after some event. */
  lemma {:induction false} CompleteWasServed(t: Task, start: Server, events: seq<Event>)
    requires t.username != "" && RowsAreReal(t, start, events)
    requires var w := Run(t, start, events); w.entry.Some? && w.entry.value.complete
    ensures exists k: nat :: WasServed(t, start, events, k)
  {
    assert events != [];
    var front, last := events[..|events| - 1], events[|events| - 1];
    var w := Run(t, start, front);
    assert events[..|events|] == events;
    forall i | 0 <= i < |front| && front[i].Pass?
      ensures IsSql(Run(t, start, front[..i]).server, t.username, front[i].api.sql)
    {
      assert front[..i] == events[..i];
    }
    if w.entry.Some? && w.entry.value.complete {
      CompleteWasServed(t, start, front);
      var k: nat :| WasServed(t, start, front, k);
      assert front[..k] == events[..k];
      assert WasServed(t, start, events, k);
    } else {
      TurnsComplete(w, t, last);
      assert IsServed(Run(t, start, events).server, t);
      assert WasServed(t, start, events, |events|);
    }
  }

  /** Only a pass turns a task complete. */
  lemma TurnsComplete(w: World, t: Task, e: Event)
    requires t.username != "" && !(w.entry.Some? && w.entry.value.complete)
    requires e.Pass? ==> IsSql(w.server, t.username, e.api.sql)
    requires var w' := Next(w, t, e); w'.entry.Some? && w'.entry.value.complete
    ensures IsServed(Next(w, t, e).server, t)
  {
    hide IsSql, OthersKeep;
    if e.Pass? && w.entry.Some? {
      CompletingServes(w, t, e.api);
      hide TaskPass, IsServed;
    }
  }

  // Without a failing call

  /** No call and no statement fails; whether the login gets through is left open. */
  ghost predicate ErrorFree(api: Api) {
    && api.get && api.config && api.update == Ok && api.save == Ok
    && api.sql.open && api.sql.getUser && api.sql.createUser == Ok && api.sql.alterUser == Ok && api.sql.flush
    && api.sql.createDatabase == Ok && api.sql.query && api.sql.scan && api.sql.grant == Ok
    && api.sql.dropUser == Ok && api.sql.dropDatabase == Ok && forall d :: api.sql.revoke(d) == Ok
  }

  lemma {:induction false} RevokeSucceeds(s: Server, t: Task, rows: seq<string>, keep: Option<string>, sql: Sql)
    requires forall d :: sql.revoke(d) == Ok
    ensures !RevokeAll(s, t, rows, keep, sql).1
  {
    if rows != [] {
      RevokeSucceeds(s, t, rows[..|rows| - 1], keep, sql);
    }
  }

  lemma ReconcileSucceeds(s: Server, t: Task, api: Api)
    requires t.username != "" && ErrorFree(api)
    ensures !ReconcileTask(s, t, api.sql).1
  {
    var mid := ReconcileDatabase(ReconcileUser(s, t, api.sql).0, t, api.sql).0;
    RevokeSucceeds(mid, t, RowsRead(t, api.sql), Some(t.database), api.sql);
    hide RevokeAll;
  }

  lemma DeleteSucceeds(s: Server, t: Task, api: Api)
    requires t.username != "" && ErrorFree(api)
    ensures !DeleteTask(s, t, api.sql).1
  {
    RevokeSucceeds(RemoveUser(s, t, api.sql).0, t, RowsRead(t, api.sql), None, api.sql);
    hide RevokeAll;
  }

  /** From every state of the server, an error-free pass over a live object with the finalizer ends
      complete with everything there. */
  lemma PassCompletes(w: World, t: Task, api: Api)
    requires t.username != "" && ErrorFree(api) && IsSql(w.server, t.username, api.sql)
    requires w.entry.Some? && !w.entry.value.deleting && MYSQL_FINALIZER in w.entry.value.finalizers
    ensures var w' := TaskPass(w, t, api).0;
            && w'.entry == Some(w.entry.value.(complete := true))
            && IsServed(w'.server, t) && OthersKeep(w.server, w'.server, t)
  {
    ReconcileSucceeds(w.server, t, api);
    ReconcileConverges(w.server, t, api.sql);
    hide DeleteTask, ReconcileTask, IsSql, OthersKeep;
  }

  /** A new task is complete after two error-free passes, the first of which only adds the finalizer. */
  lemma NewTaskCompletes(w: World, t: Task, first: Api, second: Api)
    requires t.username != "" && ErrorFree(first) && ErrorFree(second) && IsSql(w.server, t.username, second.sql)
    requires w.entry.Some? && !w.entry.value.deleting && MYSQL_FINALIZER !in w.entry.value.finalizers
    ensures var w1 := TaskPass(w, t, first).0;
            var w2 := TaskPass(w1, t, second).0;
            && w1.server == w.server && w1.entry.Some?
            && w1.entry.value.finalizers == w.entry.value.finalizers + [MYSQL_FINALIZER]
            && w2.entry == Some(w1.entry.value.(complete := true))
            && IsServed(w2.server, t) && OthersKeep(w.server, w2.server, t)
  {
    var o := w.entry.value;
    var w1 := TaskPass(w, t, first).0;
    assert w1 == World(Some(o.(finalizers := o.finalizers + [MYSQL_FINALIZER])), w.server);
    hide TaskPass, IsSql, IsServed, OthersKeep, ErrorFree;
    PassCompletes(w1, t, second);
  }

  /** An error-free pass over a deleted object leaves nothing on the server and releases the object. */
  lemma DeletedIsRemoved(w: World, t: Task, api: Api)
    requires t.username != "" && ErrorFree(api)
    requires IsOrderOf(api.sql.rows, Granted(RemoveUser(w.server, t, api.sql).0, t.username))
    requires w.entry.Some? && w.entry.value.deleting && MYSQL_FINALIZER in w.entry.value.finalizers
    ensures var w' := TaskPass(w, t, api).0;
            && !MayExist(w'.server, t) && OthersKeep(w.server, w'.server, t)
            && (w'.entry.Some? ==> MYSQL_FINALIZER !in w'.entry.value.finalizers)
            && (w'.entry == None <==> forall f | f in w.entry.value.finalizers :: f == MYSQL_FINALIZER)
  {
    DeleteSucceeds(w.server, t, api);
    DeleteRemoves(w.server, t, api.sql);
    NothingElseIsLeft(w.entry.value.finalizers);
    hide DeleteTask, ReconcileTask, OthersKeep, RemoveUser, Granted, Without;
    assert TaskPass(w, t, api) == DeletePass(w, w.entry.value, t, api);
  }

  lemma NothingElseIsLeft(finalizers: seq<string>)
    ensures Without(finalizers, MYSQL_FINALIZER) == [] <==> forall f | f in finalizers :: f == MYSQL_FINALIZER
  {
    var left := Without(finalizers, MYSQL_FINALIZER);
    forall f | f != MYSQL_FINALIZER ensures f in left <==> f in finalizers {
      assert multiset(left)[f] == multiset(finalizers)[f];
      assert f in left <==> multiset(left)[f] > 0;
      assert f in finalizers <==> multiset(finalizers)[f] > 0;
    }
    assert left != [] ==> left[0] in left;
  }
}
