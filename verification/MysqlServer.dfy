/** A database task on its MySQL server (`handlers/database/mysql_handler.go`).  The server is its users
    with host `%`, its databases and the grants on whole databases. */
module MysqlServer {
  import opened Iteration
  import opened Jobs
  import opened Names

  datatype Grant = Grant(user: string, database: string)

  /** Users with their passwords. */
  datatype Server = Server(users: map<string, string>, databases: set<string>, grants: set<Grant>)

  datatype Task = Task(username: string, password: string, database: string)

  /** How the statements of one connection end.  `login` is whether a login with the right password
      gets through; `rows` is the order of the rows of the grant table and `read` how many of them
      arrive, which the loop over the rows does not notice; `scan` is whether they can be scanned. */
  datatype Sql = Sql(
    open: bool, getUser: bool, login: bool, createUser: Call, alterUser: Call, flush: bool, createDatabase: Call,
    query: bool, rows: seq<string>, read: nat, scan: bool, revoke: string -> Call, grant: Call,
    dropUser: Call, dropDatabase: Call)

  ghost function Granted(s: Server, user: string): set<string> {
    set g | g in s.grants && g.user == user :: g.database
  }

  ghost predicate IsSql(s: Server, user: string, sql: Sql) {
    IsOrderOf(sql.rows, Granted(s, user))
  }

  // Specification, statement by statement

  /** An empty result leaves the name empty, so that an empty user name always counts as found. */
  predicate IsFound(s: Server, t: Task) { t.username == "" || t.username in s.users }

  predicate CanLogin(s: Server, t: Task, sql: Sql) {
    sql.login && t.username in s.users && s.users[t.username] == t.password
  }

  function SetPassword(s: Server, t: Task): Server {
    s.(users := s.users[t.username := t.password])
  }

  function ReconcileUser(s: Server, t: Task, sql: Sql): (Server, bool) {
    if !sql.getUser then (s, true)
    else if IsFound(s, t) then
      if CanLogin(s, t, sql) then (s, false)
      else if t.username !in s.users || sql.alterUser == Rejected then (s, true)
      else (SetPassword(s, t), sql.alterUser != Ok || !sql.flush)
    else if sql.createUser == Rejected then (s, true)
    else (SetPassword(s, t), sql.createUser != Ok || !sql.flush)
  }

  function ReconcileDatabase(s: Server, t: Task, sql: Sql): (Server, bool) {
    (if sql.createDatabase == Rejected then s else s.(databases := s.databases + {t.database}),
        sql.createDatabase != Ok)
  }

  /** The rows that are seen. */
  function RowsRead(t: Task, sql: Sql): seq<string> {
    if t.username == "" then [] else if sql.read < |sql.rows| then sql.rows[..sql.read] else sql.rows
  }

  predicate RowsFail(t: Task, sql: Sql) {
    t.username != "" && (!sql.query || !sql.scan)
  }

  function Revoke(s: Server, t: Task, database: string, sql: Sql): (Server, bool) {
    if database == "" then (s, false)
    else (if sql.revoke(database) == Rejected then s else s.(grants := s.grants - {Grant(t.username, database)}),
        sql.revoke(database) != Ok)
  }

  /** Everything in `rows` but `keep`. */
  function RevokeAll(s: Server, t: Task, rows: seq<string>, keep: Option<string>, sql: Sql): (Server, bool) {
    if rows == [] then (s, false)
    else
      var (before, failed) := RevokeAll(s, t, rows[..|rows| - 1], keep, sql);
      var row := rows[|rows| - 1];
      if failed then (before, true)
      else if keep == Some(row) then (before, false)
      else Revoke(before, t, row, sql)
  }

  function ReconcilePermissions(s: Server, t: Task, sql: Sql): (Server, bool) {
    if RowsFail(t, sql) then (s, true)
    else
      var (revoked, failed) := RevokeAll(s, t, RowsRead(t, sql), Some(t.database), sql);
      if failed then (revoked, true)
      else if t.database in RowsRead(t, sql) then (revoked, false)
      else (if sql.grant == Rejected then revoked else revoked.(grants :=
          revoked.grants + {Grant(t.username, t.database)}), sql.grant != Ok)
  }

  function ReconcileTask(s: Server, t: Task, sql: Sql): (Server, bool) {
    var (user, failed) := ReconcileUser(s, t, sql);
    if failed then (user, true)
    else
      var (database, failed') := ReconcileDatabase(user, t, sql);
      if failed' then (database, true) else ReconcilePermissions(database, t, sql)
  }

  /** A dropped user loses its grants. */
  ghost function RemoveUser(s: Server, t: Task, sql: Sql): (Server, bool) {
    if t.username == "" then (s, false)
    else if !sql.getUser then (s, true)
    else if t.username !in s.users then (s, false)
    else (if sql.dropUser == Rejected then s else DropUser(s, t.username), sql.dropUser != Ok)
  }

  ghost function DropUser(s: Server, user: string): Server {
    s.(users := s.users - {user}, grants := set g | g in s.grants && g.user != user)
  }

  function RemoveDatabase(s: Server, t: Task, sql: Sql): (Server, bool) {
    (if sql.dropDatabase == Rejected then s else s.(databases := s.databases - {t.database}), sql.dropDatabase != Ok)
  }

  /** `sql.rows` are the grants that are left after the user has been removed. */
  ghost function DeleteTask(s: Server, t: Task, sql: Sql): (Server, bool) {
    var (user, failed) := RemoveUser(s, t, sql);
    if failed then (user, true)
    else if RowsFail(t, sql) then (user, true)
    else
      var (revoked, failed') := RevokeAll(user, t, RowsRead(t, sql), None, sql);
      if failed' then (revoked, true) else RemoveDatabase(revoked, t, sql)
  }

  // The handler

  class MysqlReconcileTask {
    const task: Task
    var server: Server

    constructor (task: Task, server: Server)
      ensures this.task == task && this.server == server
    {
      this.task := task;
      this.server := server;
    }

    method ReconcileUserStep(sql: Sql) returns (failed: bool)
      modifies this
      ensures (server, failed) == ReconcileUser(old(server), task, sql)
    {
      if !sql.getUser {
        return true;
      }
      var found := if task.username in server.users then task.username else "";
      if found == task.username {
        if CanLogin(server, task, sql) {
          return false;
        }
        if task.username !in server.users || sql.alterUser == Rejected {
          return true;
        }
        server := SetPassword(server, task);
        if sql.alterUser != Ok {
          return true;
        }
      } else {
        if sql.createUser == Rejected {
          return true;
        }
        server := SetPassword(server, task);
        if sql.createUser != Ok {
          return true;
        }
      }
      failed := !sql.flush;
    }

    method GetDatabasesWhereUserHasPermissions(sql: Sql) returns (names: seq<string>, failed: bool)
      ensures failed == RowsFail(task, sql)
      ensures !failed ==> names == RowsRead(task, sql)
    {
      names, failed := [], false;
      if task.username == "" {
        return;
      }
      if !sql.query || !sql.scan {
        failed := true;
        return;
      }
      for i := 0 to |sql.rows|
        invariant i <= sql.read && names == sql.rows[..i]
      {
        if i == sql.read {
          break;
        }
        names := names + [sql.rows[i]];
      }
    }

    method RevokeNotRequestedPermissions(names: seq<string>, keep: Option<string>, sql: Sql)
      returns (kept: bool, failed: bool)
      modifies this
      ensures (server, failed) == RevokeAll(old(server), task, names, keep, sql)
      ensures !failed ==> (kept <==> keep.Some? && keep.value in names)
    {
      kept, failed := false, false;
      for i := 0 to |names|
        invariant (server, false) == RevokeAll(old(server), task, names[..i], keep, sql)
        invariant kept <==> keep.Some? && keep.value in names[..i]
      {
        RevokeOneMore(old(server), task, names, i, keep, sql);
        assert names[..i + 1] == names[..i] + [names[i]];
        var name := names[i];
        if keep == Some(name) {
          kept := true;
        } else if name != "" {
          if sql.revoke(name) != Rejected {
            server := server.(grants := server.grants - {Grant(task.username, name)});
          }
          if sql.revoke(name) != Ok {
            failed := true;
            return;
          }
        }
      }
      assert names[..|names|] == names;
    }

    method ReconcilePermissionsStep(sql: Sql) returns (failed: bool)
      modifies this
      ensures (server, failed) == ReconcilePermissions(old(server), task, sql)
    {
      var names, rowsFailed := GetDatabasesWhereUserHasPermissions(sql);
      if rowsFailed {
        return true;
      }
      var havePerms: bool;
      havePerms, failed := RevokeNotRequestedPermissions(names, Some(task.database), sql);
      if failed {
        return;
      }
      if !havePerms {
        if sql.grant != Rejected {
          server := server.(grants := server.grants + {Grant(task.username, task.database)});
        }
        failed := sql.grant != Ok;
      }
    }

    method Reconcile(sql: Sql) returns (failed: bool)
      modifies this
      ensures (server, failed) == ReconcileTask(old(server), task, sql)
    {
      hide ReconcileUser, ReconcilePermissions;
      failed := ReconcileUserStep(sql);
      if failed {
        return;
      }
      if sql.createDatabase != Rejected {
        server := server.(databases := server.databases + {task.database});
      }
      if sql.createDatabase != Ok {
        return true;
      }
      failed := ReconcilePermissionsStep(sql);
    }

    method RemoveUserStep(sql: Sql) returns (failed: bool)
      modifies this
      ensures (server, failed) == RemoveUser(old(server), task, sql)
    {
      if task.username == "" {
        return false;
      }
      if !sql.getUser {
        return true;
      }
      if task.username !in server.users {
        return false;
      }
      if sql.dropUser != Rejected {
        server := Server(server.users - {task.username}, server.databases, set g | g in server.grants
            && g.user != task.username);
      }
      failed := sql.dropUser != Ok;
    }

    method Delete(sql: Sql) returns (failed: bool)
      modifies this
      ensures (server, failed) == DeleteTask(old(server), task, sql)
    {
      hide RemoveUser, RevokeAll;
      failed := RemoveUserStep(sql);
      if failed {
        return;
      }
      var names, rowsFailed := GetDatabasesWhereUserHasPermissions(sql);
      if rowsFailed {
        return true;
      }
      var kept: bool;
      kept, failed := RevokeNotRequestedPermissions(names, None, sql);
      if failed {
        return;
      }
      if sql.dropDatabase != Rejected {
        server := server.(databases := server.databases - {task.database});
      }
      failed := sql.dropDatabase != Ok;
    }
  }

  lemma RevokeOneMore(s: Server, t: Task, rows: seq<string>, i: nat, keep: Option<string>, sql: Sql)
    requires i < |rows| && !RevokeAll(s, t, rows[..i], keep, sql).1
    ensures RevokeAll(s, t, rows[..i + 1], keep, sql) ==
            if keep == Some(rows[i]) then (RevokeAll(s, t, rows[..i], keep, sql).0, false)
                else Revoke(RevokeAll(s, t, rows[..i], keep, sql).0, t, rows[i], sql)
    ensures RevokeAll(s, t, rows[..i + 1], keep, sql).1
        ==> RevokeAll(s, t, rows, keep, sql) == RevokeAll(s, t, rows[..i + 1], keep, sql)
  {
    assert rows[..i + 1][..i] == rows[..i];
    if RevokeAll(s, t, rows[..i + 1], keep, sql).1 {
      RevokeStops(s, t, rows, i + 1, keep, sql);
    }
  }

  lemma {:induction false} RevokeStops(s: Server, t: Task, rows: seq<string>, k: nat, keep: Option<string>, sql: Sql)
    requires k <= |rows| && RevokeAll(s, t, rows[..k], keep, sql).1
    ensures RevokeAll(s, t, rows, keep, sql) == RevokeAll(s, t, rows[..k], keep, sql)
    decreases |rows|
  {
    if k == |rows| {
      assert rows[..k] == rows;
    } else {
      assert rows[..|rows| - 1][..k] == rows[..k];
      RevokeStops(s, t, rows[..|rows| - 1], k, keep, sql);
    }
  }

  // Convergence

  /** What revoking does to the grants; nothing else changes, failures included. */
  lemma {:induction false} RevokeAllMeans(s: Server, t: Task, rows: seq<string>, keep: Option<string>, sql: Sql)
    ensures var (after, failed) := RevokeAll(s, t, rows, keep, sql);
            && after.users == s.users && after.databases == s.databases && after.grants <= s.grants
            && (forall g | g in s.grants && g !in after.grants ::
                g.user == t.username && g.database in rows
                && g.database != "" && keep != Some(g.database))
            && (!failed ==> forall x | x in rows && x != "" && keep != Some(x) :: Grant(t.username, x) !in after.grants)
  {
    if rows != [] {
      var front, last := rows[..|rows| - 1], rows[|rows| - 1];
      RevokeAllMeans(s, t, front, keep, sql);
      assert forall x :: x in rows <==> x in front || x == last;
    }
  }

  /** Only this user, its grants and this database change. */
  ghost predicate OthersKeep(s: Server, after: Server, t: Task) {
    && (forall u | u != t.username :: u in after.users <==> u in s.users)
    && (forall u | u != t.username && u in s.users :: after.users[u] == s.users[u])
    && (forall d | d != t.database :: d in after.databases <==> d in s.databases)
    && (forall g: Grant | g.user != t.username :: g in after.grants <==> g in s.grants)
  }

  lemma UserAndDatabase(s: Server, t: Task, sql: Sql)
    requires t.username != "" && !ReconcileUser(s, t, sql).1 && !ReconcileDatabase(ReconcileUser(s, t, sql).0, t, sql).1
    ensures var after := ReconcileDatabase(ReconcileUser(s, t, sql).0, t, sql).0;
            && t.username in after.users && after.users[t.username] == t.password
            && t.database in after.databases && after.grants == s.grants && OthersKeep(s, after, t)
            && (t.username in s.users && s.users[t.username] == t.password && t.database in s.databases ==> after == s)
  {
    if t.username in s.users && s.users[t.username] == t.password && t.database in s.databases {
      assert s.users[t.username := t.password] == s.users;
      assert s.databases + {t.database} == s.databases;
    }
  }

  lemma PermissionsMean(s: Server, t: Task, sql: Sql)
    requires t.username != "" && IsSql(s, t.username, sql) && !ReconcilePermissions(s, t, sql).1
    ensures var after := ReconcilePermissions(s, t, sql).0;
            && after.users == s.users && after.databases == s.databases && OthersKeep(s, after, t)
            && (forall x :: Grant(t.username, x) in after.grants <==>
                  x == t.database || (Grant(t.username, x) in s.grants && (x == "" || x !in RowsRead(t, sql))))
  {
    var rows := RowsRead(t, sql);
    var (revoked, failed) := RevokeAll(s, t, rows, Some(t.database), sql);
    RevokeAllMeans(s, t, rows, Some(t.database), sql);
    var after := ReconcilePermissions(s, t, sql).0;
    hide RevokeAll, RowsRead;
    RowsAreGranted(s, t, sql);
    forall x ensures Grant(t.username, x) in after.grants
        <==> x == t.database || (Grant(t.username, x) in s.grants && (x == "" || x !in rows)) {
      if x == t.database {
        assert x in rows ==> Grant(t.username, x) in s.grants;
      } else {
        assert Grant(t.username, x) in after.grants <==> Grant(t.username, x) in revoked.grants;
      }
    }
  }

  lemma RowsAreGranted(s: Server, t: Task, sql: Sql)
    requires IsSql(s, t.username, sql)
    ensures forall x | x in RowsRead(t, sql) :: Grant(t.username, x) in s.grants
  {
    forall x | x in RowsRead(t, sql) ensures Grant(t.username, x) in s.grants {
      assert x in sql.rows;
      assert x in Granted(s, t.username);
      var g :| g in s.grants && g.user == t.username && g.database == x;
      assert g == Grant(t.username, x);
    }
  }

  /** From any state of the server, a successful run for a non-empty user name leaves the user with the
      password, the database, and as the grants of the user the database, an empty name if there was one,
      and whatever the loop over the rows did not get to see.  Other users, databases and grants stay. */
  lemma ReconcileConverges(s: Server, t: Task, sql: Sql)
    requires t.username != "" && IsSql(s, t.username, sql) && !ReconcileTask(s, t, sql).1
    ensures var after := ReconcileTask(s, t, sql).0;
            && t.username in after.users && after.users[t.username] == t.password && t.database in after.databases
            && OthersKeep(s, after, t)
            && (forall x :: Grant(t.username, x) in after.grants <==>
                  x == t.database || (Grant(t.username, x) in s.grants && (x == "" || x !in RowsRead(t, sql))))
  {
    UserAndDatabase(s, t, sql);
    var mid := ReconcileDatabase(ReconcileUser(s, t, sql).0, t, sql).0;
    assert Granted(mid, t.username) == Granted(s, t.username);
    PermissionsMean(mid, t, sql);
    hide ReconcileUser, ReconcileDatabase, ReconcilePermissions, RowsRead, Granted;
  }

  /** The grants end up exactly as requested if and only if every row that arrives too late is the
      requested one and no grant has an empty name. */
  lemma GrantsAreExactExactly(s: Server, t: Task, sql: Sql)
    requires t.username != "" && IsSql(s, t.username, sql) && !ReconcileTask(s, t, sql).1
    ensures Granted(ReconcileTask(s, t, sql).0, t.username) == {t.database} <==>
            (forall i | sql.read <= i < |sql.rows| :: sql.rows[i] == t.database)
                && ("" in sql.rows ==> t.database == "")
  {
    ReconcileConverges(s, t, sql);
    var after := ReconcileTask(s, t, sql).0;
    hide ReconcileTask, OthersKeep;
    GrantedIs(s, t.username);
    GrantedIs(after, t.username);
    if Granted(after, t.username) == {t.database} {
      forall i | sql.read <= i < |sql.rows| ensures sql.rows[i] == t.database {
        LateRowIsNotRead(t, sql, i);
        assert sql.rows[i] in sql.rows && sql.rows[i] in Granted(s, t.username);
        assert sql.rows[i] in Granted(after, t.username);
      }
      if "" in sql.rows {
        assert "" in Granted(s, t.username);
        assert "" in Granted(after, t.username);
      }
    }
    if (forall i | sql.read <= i < |sql.rows| :: sql.rows[i] == t.database) && ("" in sql.rows ==> t.database == "") {
      forall x | x in sql.rows ensures x in RowsRead(t, sql) || x == t.database {
        var i :| 0 <= i < |sql.rows| && sql.rows[i] == x;
        if i < sql.read {
          EarlyRowIsRead(t, sql, i);
        }
      }
      assert forall x | x in Granted(s, t.username) :: x in sql.rows;
      assert forall x :: x in Granted(after, t.username) <==> x == t.database;
    }
  }

  lemma GrantedIs(s: Server, user: string)
    ensures forall x :: x in Granted(s, user) <==> Grant(user, x) in s.grants
  {
    forall x ensures x in Granted(s, user) <==> Grant(user, x) in s.grants {
      if x in Granted(s, user) {
        var g :| g in s.grants && g.user == user && g.database == x;
        assert g == Grant(user, x);
      }
    }
  }

  lemma LateRowIsNotRead(t: Task, sql: Sql, i: nat)
    requires t.username != "" && sql.read <= i < |sql.rows| && IsOrderOf(sql.rows, ToSet(sql.rows))
    ensures sql.rows[i] !in RowsRead(t, sql)
  {
  }

  lemma EarlyRowIsRead(t: Task, sql: Sql, i: nat)
    requires t.username != "" && i < |sql.rows| && i < sql.read
    ensures sql.rows[i] in RowsRead(t, sql)
  {
    if sql.read < |sql.rows| {
      assert sql.rows[..sql.read][i] == sql.rows[i];
    }
  }

  /** A second successful run, on what the first left and with all rows, changes nothing. */
  lemma SecondRunChangesNothing(s: Server, t: Task, sql: Sql, again: Sql)
    requires t.username != "" && IsSql(s, t.username, sql) && !ReconcileTask(s, t, sql).1 && sql.read >= |sql.rows|
    requires var after := ReconcileTask(s, t, sql).0;
        IsSql(after, t.username, again)
        && !ReconcileTask(after, t, again).1
    ensures ReconcileTask(ReconcileTask(s, t, sql).0, t, again).0 == ReconcileTask(s, t, sql).0
  {
    var after := ReconcileTask(s, t, sql).0;
    ReconcileConverges(s, t, sql);
    NothingLeftToRevoke(s, after, t, sql);
    hide RowsRead, IsSql;
    UserAndDatabase(after, t, again);
    assert ReconcileTask(after, t, again) == ReconcilePermissions(after, t, again);
    PermissionsAreThere(after, t, again);
  }

  lemma NothingLeftToRevoke(s: Server, after: Server, t: Task, sql: Sql)
    requires t.username != "" && IsSql(s, t.username, sql) && sql.read >= |sql.rows|
    requires forall x :: Grant(t.username, x) in after.grants <==>
               x == t.database || (Grant(t.username, x) in s.grants && (x == "" || x !in RowsRead(t, sql)))
    ensures forall x | Grant(t.username, x) in after.grants :: x == t.database || x == ""
  {
    GrantedIs(s, t.username);
    forall x | Grant(t.username, x) in after.grants && x != t.database ensures x == "" {
      assert x in Granted(s, t.username) && x in sql.rows;
    }
  }

  lemma PermissionsAreThere(s: Server, t: Task, sql: Sql)
    requires IsSql(s, t.username, sql) && Grant(t.username, t.database) in s.grants && t.username != ""
    requires forall x | Grant(t.username, x) in s.grants :: x == t.database || x == ""
    requires !ReconcilePermissions(s, t, sql).1
    ensures ReconcilePermissions(s, t, sql).0 == s
  {
    RowsAreGranted(s, t, sql);
    RevokeAllMeans(s, t, RowsRead(t, sql), Some(t.database), sql);
    var revoked := RevokeAll(s, t, RowsRead(t, sql), Some(t.database), sql).0;
    hide RevokeAll, RowsRead;
    assert revoked.grants == s.grants;
    assert s.grants + {Grant(t.username, t.database)} == s.grants;
  }

  /** User names are never empty, whatever the site and service are called. */
  lemma UsernamesAreNotEmpty(md5: string -> string, siteUsername: string, shortName: string)
    requires IsDigest(md5)
    ensures MakeUsername(md5, siteUsername, shortName) != ""
  {
    var value := siteUsername + "_" + shortName;
    var replaced := ReplaceChar(value, '-', '_');
    assert replaced[|siteUsername|] == '_';
    KeepsDbChar(replaced, |siteUsername|);
  }

  lemma {:induction false} KeepsDbChar(s: string, i: nat)
    requires i < |s| && IsDbChar(s[i])
    ensures KeepDbChars(s) != ""
  {
    if i > 0 {
      KeepsDbChar(s[1..], i - 1);
    }
  }

  /** A successful deletion removes the user, its grants and the database, and nothing else. */
  lemma DeleteRemoves(s: Server, t: Task, sql: Sql)
    requires t.username != "" && !DeleteTask(s, t, sql).1
    requires IsOrderOf(sql.rows, Granted(RemoveUser(s, t, sql).0, t.username))
    ensures var after := DeleteTask(s, t, sql).0;
            && t.username !in after.users && t.database !in after.databases && OthersKeep(s, after, t)
            && (t.username in s.users ==> Granted(after, t.username) == {})
  {
    var removed := RemoveUser(s, t, sql).0;
    RevokeAllMeans(removed, t, RowsRead(t, sql), None, sql);
    hide RevokeAll;
  }
}
