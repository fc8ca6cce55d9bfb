/**
 * The system bootstrap service (backend/src/services/systemService.js).
 *
 * The database server is an abstract state: its schema names and the rows
 * of `sys_user` keyed by username.  The mysql2 driver is a `Driver` value
 * that says which calls fail (with the driver's message) and what a script
 * statement does to the state; the file read, the bcrypt hash and the
 * bcrypt comparison are parameters.
 */
module SystemService {
  import opened Wrappers
  import JsString

  /** A `sys_user` row, without its clock-valued `created_at`. */
  datatype UserRow = UserRow(
    password: string, realName: string, email: Option<string>, mobile: Option<string>,
    isAdmin: int, status: int, createdBy: int)

  datatype DbState = DbState(schemas: set<string>, users: map<string, UserRow>)

  /**
   * The driver seen from outside.  `connectError` and `endError` are the
   * failures of `mysql.createConnection` and `connection.end()`;
   * `queryError(db, sql)` is the failure, if any, of `connection.query(sql)`
   * on state `db`, and `effect(db, sql)` the state after it succeeds.
   */
  datatype Driver = Driver(
    connectError: Option<string>,
    endError: Option<string>,
    queryError: (DbState, string) -> Option<string>,
    effect: (DbState, string) -> DbState)

  /** How an exported async function settles: with a value, or rejected with an error message. */
  datatype Settled<T> = Returned(value: T) | Rejected(message: string)

  /** The `{success, message}` objects the service returns. */
  datatype ServiceResult = ServiceResult(success: bool, message: string)

  const InitFailedPrefix: string := "系统初始化失败："
  const InitSucceeded: string := "系统初始化成功"
  const AdminRealName: string := "管理员"
  const AdminUpsertSql: string :=
    "INSERT INTO sys_user (username, password, real_name, email, mobile, is_admin, status, created_at, created_by) "
    + "VALUES (?, ?, '管理员', NULL, NULL, 1, 1, NOW(), 1) ON DUPLICATE KEY UPDATE password = VALUES(password)"

  // ---------------------------------------------------------------------------
  // Cutting the script into statements

  /** `.map(statement => statement.trim()).filter(statement => statement.length > 0)` */
  function TrimAndDropEmpty(pieces: seq<string>): (statements: seq<string>)
    ensures |statements| <= |pieces|
    ensures forall i :: 0 <= i < |statements| ==> statements[i] != "" && JsString.IsTrimmed(statements[i])
    ensures (forall j :: 0 <= j < |pieces| ==> ';' !in pieces[j]) ==> forall i :: 0 <= i < |statements| ==> ';' !in statements[i]
    decreases |pieces|
  {
    if pieces == [] then []
    else
      var s := JsString.Trim(pieces[0]);
      var head, rest := if s == "" then [] else [s], TrimAndDropEmpty(pieces[1..]);
      HeadIsStatement(pieces[0], head);
      PiecesWithoutSemicolon(pieces);
      JoinKeepsStatements(head, rest);
      head + rest
  }

  lemma HeadIsStatement(piece: string, head: seq<string>)
    requires head == if JsString.Trim(piece) == "" then [] else [JsString.Trim(piece)]
    ensures forall i :: 0 <= i < |head| ==> head[i] != "" && JsString.IsTrimmed(head[i])
    ensures ';' !in piece ==> forall i :: 0 <= i < |head| ==> ';' !in head[i]
  {
    TrimAddsNoSemicolon(piece);
  }

  lemma PiecesWithoutSemicolon(pieces: seq<string>)
    requires pieces != []
    ensures (forall j :: 0 <= j < |pieces| ==> ';' !in pieces[j])
            ==> ';' !in pieces[0] && forall j :: 0 <= j < |pieces[1..]| ==> ';' !in pieces[1..][j]
  {
    if forall j :: 0 <= j < |pieces| ==> ';' !in pieces[j] {
      forall j | 0 <= j < |pieces[1..]|
        ensures ';' !in pieces[1..][j]
      {
        assert pieces[1..][j] == pieces[j + 1];
      }
    }
  }

  lemma JoinKeepsStatements(head: seq<string>, rest: seq<string>)
    requires forall i :: 0 <= i < |head| ==> head[i] != "" && JsString.IsTrimmed(head[i])
    requires forall i :: 0 <= i < |rest| ==> rest[i] != "" && JsString.IsTrimmed(rest[i])
    ensures forall i :: 0 <= i < |head + rest| ==> (head + rest)[i] != "" && JsString.IsTrimmed((head + rest)[i])
    ensures (forall i :: 0 <= i < |head| ==> ';' !in head[i]) && (forall i :: 0 <= i < |rest| ==> ';' !in rest[i])
            ==> forall i :: 0 <= i < |head + rest| ==> ';' !in (head + rest)[i]
  {
  }

  lemma TrimAddsNoSemicolon(piece: string)
    ensures ';' in JsString.Trim(piece) ==> ';' in piece
  {
    if ';' in JsString.Trim(piece) {
      JsString.TrimKeepsCharacters(piece, ';');
    }
  }

  /** The statements `initializeSystem` cuts a script into. */
  function Statements(script: string): (statements: seq<string>)
    ensures forall i :: 0 <= i < |statements| ==> statements[i] != "" && ';' !in statements[i] && JsString.IsTrimmed(statements[i])
  {
    TrimAndDropEmpty(JsString.Split(script, ';'))
  }

  /**
   * Statements written out one after another, separated by `;`, are cut
   * back into exactly those statements, in order.
   */
  lemma StatementsOfJoinedScript(statements: seq<string>)
    requires |statements| >= 1
    requires forall s :: s in statements ==> s != "" && ';' !in s && JsString.IsTrimmed(s)
    ensures Statements(JsString.Join(statements, ';')) == statements
  {
    JsString.SplitJoin(statements, ';');
    TrimAndDropEmptyOfClean(statements);
  }

  lemma {:induction false} TrimAndDropEmptyOfClean(statements: seq<string>)
    requires forall s :: s in statements ==> s != "" && JsString.IsTrimmed(s)
    ensures TrimAndDropEmpty(statements) == statements
    decreases |statements|
  {
    if statements != [] {
      JsString.TrimOfTrimmed(statements[0]);
      assert forall s :: s in statements[1..] ==> s in statements;
      TrimAndDropEmptyOfClean(statements[1..]);
    }
  }

  /** One piece contributes its trimmed text, unless that is empty. */
  lemma TrimAndDropEmptyOne(piece: string)
    ensures TrimAndDropEmpty([piece]) == if JsString.Trim(piece) == "" then [] else [JsString.Trim(piece)]
  {
    assert [piece][1..] == [];
  }

  /** The first piece's statement, if any, comes before those of the others. */
  lemma TrimAndDropEmptyStep(pieces: seq<string>)
    requires pieces != []
    ensures TrimAndDropEmpty(pieces) == TrimAndDropEmpty([pieces[0]]) + TrimAndDropEmpty(pieces[1..])
  {
    TrimAndDropEmptyOne(pieces[0]);
  }

  /** The statements of consecutive pieces come out in the order of the pieces. */
  lemma {:induction false} TrimAndDropEmptyAppend(a: seq<string>, b: seq<string>)
    ensures TrimAndDropEmpty(a + b) == TrimAndDropEmpty(a) + TrimAndDropEmpty(b)
    decreases |a|
  {
    if a == [] {
      assert a + b == b;
    } else {
      var whole, tail := a + b, a[1..] + b;
      assert whole != [] && whole[0] == a[0] && whole[1..] == tail by { Uncons(a, b); }
      TrimAndDropEmptyStep(whole);
      TrimAndDropEmptyStep(a);
      TrimAndDropEmptyAppend(a[1..], b);
      Reassociate(TrimAndDropEmpty(whole), TrimAndDropEmpty(a), TrimAndDropEmpty([a[0]]),
                  TrimAndDropEmpty(tail), TrimAndDropEmpty(a[1..]), TrimAndDropEmpty(b));
    }
  }

  lemma Uncons(a: seq<string>, b: seq<string>)
    requires a != []
    ensures a + b != [] && (a + b)[0] == a[0] && (a + b)[1..] == a[1..] + b
  {
  }

  lemma Reassociate(whole: seq<string>, left: seq<string>, first: seq<string>,
                    rest: seq<string>, leftRest: seq<string>, right: seq<string>)
    requires whole == first + rest && left == first + leftRest && rest == leftRest + right
    ensures whole == left + right
  {
  }

  /** A piece of the script that is blank or all space contributes no statement. */
  lemma {:induction false} BlankPiecesDropped(pieces: seq<string>, blank: string)
    requires forall c :: c in blank ==> JsString.IsSpace(c)
    ensures TrimAndDropEmpty([blank] + pieces) == TrimAndDropEmpty(pieces)
  {
    var r := JsString.Trim(blank);
    var i :| JsString.SliceWithSpaceAround(blank, r, i);
    assert ([blank] + pieces)[1..] == pieces;
  }

  // ---------------------------------------------------------------------------
  // Running the statements

  /** How far a run of statements got: the state, how many succeeded, and the first error. */
  datatype Run = Run(db: DbState, executed: nat, error: Option<string>)

  /** The `for ... of` loop of awaited queries: the first failing query ends the run. */
  function RunStatements(d: Driver, db: DbState, statements: seq<string>): (r: Run)
    ensures r.executed <= |statements|
    ensures r.error.None? <==> r.executed == |statements|
    decreases |statements|
  {
    if statements == [] then Run(db, 0, None)
    else
      match d.queryError(db, statements[0])
      case Some(e) => Run(db, 0, Some(e))
      case None =>
        var r := RunStatements(d, d.effect(db, statements[0]), statements[1..]);
        r.(executed := r.executed + 1)
  }

  /** The state after all the statements succeed, one after another. */
  function ApplyAll(d: Driver, db: DbState, statements: seq<string>): DbState
    decreases |statements|
  {
    if statements == [] then db else ApplyAll(d, d.effect(db, statements[0]), statements[1..])
  }

  /**
   * A run applies its statements in order and stops at the first failure:
   * every statement before it succeeded, the failing one is the one whose
   * error is reported, and the state keeps the effect of all the statements
   * before it (nothing is rolled back).
   */
  lemma {:induction false} RunStopsAtFirstFailure(d: Driver, db: DbState, statements: seq<string>)
    ensures var r := RunStatements(d, db, statements);
      && r.db == ApplyAll(d, db, statements[..r.executed])
      && (forall i :: 0 <= i < r.executed ==> d.queryError(ApplyAll(d, db, statements[..i]), statements[i]).None?)
      && (r.error.Some? ==> r.error == d.queryError(r.db, statements[r.executed]))
    decreases |statements|
  {
    if statements != [] && d.queryError(db, statements[0]).None? {
      var db1 := d.effect(db, statements[0]);
      var tail := statements[1..];
      RunStopsAtFirstFailure(d, db1, tail);
      var r := RunStatements(d, db, statements);
      assert r.executed == RunStatements(d, db1, tail).executed + 1;
      forall i | 0 <= i <= r.executed
        ensures ApplyAll(d, db, statements[..i]) == if i == 0 then db else ApplyAll(d, db1, tail[..i - 1])
      {
        if i > 0 {
          assert statements[..i][0] == statements[0];
          assert statements[..i][1..] == tail[..i - 1];
        }
      }
      forall i | 0 <= i < r.executed
        ensures d.queryError(ApplyAll(d, db, statements[..i]), statements[i]).None?
      {
        if i > 0 {
          assert statements[i] == tail[i - 1];
        }
      }
    }
  }

  // ---------------------------------------------------------------------------
  // The admin user

  /**
   * `INSERT ... ON DUPLICATE KEY UPDATE password = VALUES(password)` keyed on
   * the username: a new username gets a fresh admin row, an existing one
   * only a new password.
   */
  function UpsertAdmin(users: map<string, UserRow>, username: string, hashed: string): (r: map<string, UserRow>)
    ensures r.Keys == users.Keys + {username}
    ensures r[username].password == hashed
    ensures username in users ==> r[username] == users[username].(password := hashed)
    ensures username !in users ==> r[username] == UserRow(hashed, AdminRealName, None, None, 1, 1, 1)
    ensures forall u :: u in users && u != username ==> r[u] == users[u]
  {
    var row := if username in users then users[username].(password := hashed)
               else UserRow(hashed, AdminRealName, None, None, 1, 1, 1);
    users[username := row]
  }

  /** Running the upsert again with the same password hash changes nothing. */
  lemma UpsertAdminIdempotent(users: map<string, UserRow>, username: string, hashed: string)
    ensures UpsertAdmin(UpsertAdmin(users, username, hashed), username, hashed) == UpsertAdmin(users, username, hashed)
  {
  }

  // ---------------------------------------------------------------------------
  // initializeSystem

  /** What one call of `initializeSystem` leaves: how it settles, the database, and how many times it closed its connection. */
  datatype InitOutcome = InitOutcome(settled: Settled<ServiceResult>, db: DbState, closes: nat)

  /** The failure object: `success: false` and the message behind the fixed prefix. */
  function InitFailure(message: string): (r: ServiceResult)
    ensures !r.success && InitFailedPrefix <= r.message
  {
    assert (InitFailedPrefix + message)[..|InitFailedPrefix|] == InitFailedPrefix;
    ServiceResult(false, InitFailedPrefix + message)
  }

  /**
   * `initializeSystem(username, password)` on database `db`, where `script`
   * is what reading the SQL file gave and `hash` is bcrypt at cost 10.
   * The `finally` block closes a connection that was opened; if that close
   * fails, its error replaces the returned object.
   */
  function Initialize(d: Driver, db: DbState, script: Result<string, string>, hash: string -> string,
                      username: string, password: string): (r: InitOutcome)
    ensures r.closes == (if d.connectError.None? then 1 else 0)
  {
    if d.connectError.Some? then
      InitOutcome(Returned(InitFailure(d.connectError.value)), db, 0)
    else
      var (result, db') := Connected(d, db, script, hash, username, password);
      InitOutcome(if d.endError.Some? then Rejected(d.endError.value) else Returned(result), db', 1)
  }

  /**
   * The body of the `try` once the connection is open: the result it
   * returns and the database it leaves.
   */
  function Connected(d: Driver, db: DbState, script: Result<string, string>, hash: string -> string,
                     username: string, password: string): (ServiceResult, DbState)
  {
    match script
    case Err(e) => (InitFailure(e), db)
    case Ok(text) =>
      var run := RunStatements(d, db, Statements(text));
      if run.error.Some? then (InitFailure(run.error.value), run.db)
      else
        match d.queryError(run.db, AdminUpsertSql)
        case Some(e) => (InitFailure(e), run.db)
        case None =>
          (ServiceResult(true, InitSucceeded),
           run.db.(users := UpsertAdmin(run.db.users, username, hash(password))))
  }

  /**
   * A successful initialisation has run every statement of the script and
   * then upserted the admin: exactly one row has the username, it holds the
   * hash of the password, it is a fresh admin row unless the statements left
   * one for that username (then only its password changed), and every other
   * row is as the statements left it.
   */
  lemma InitSuccessUpsertsAdmin(d: Driver, db: DbState, script: Result<string, string>, hash: string -> string,
                                username: string, password: string)
    requires Initialize(d, db, script, hash, username, password).settled == Returned(ServiceResult(true, InitSucceeded))
    ensures script.Ok?
    ensures var after := ApplyAll(d, db, Statements(script.value));
      var users := Initialize(d, db, script, hash, username, password).db.users;
      && RunStatements(d, db, Statements(script.value)).error.None?
      && users.Keys == after.users.Keys + {username}
      && users[username].password == hash(password)
      && (username in after.users ==> users[username] == after.users[username].(password := hash(password)))
      && (username !in after.users ==> users[username] == UserRow(hash(password), AdminRealName, None, None, 1, 1, 1))
      && (forall u :: u in after.users && u != username ==> users[u] == after.users[u])
  {
    InitNeverFailsWithSuccessMessage(d, db, script, hash, username, password);
    var statements := Statements(script.value);
    RunStopsAtFirstFailure(d, db, statements);
    assert statements[..|statements|] == statements;
  }

  /** Every returned failure carries the fixed prefix; only a run that reached the end returns success. */
  lemma InitNeverFailsWithSuccessMessage(d: Driver, db: DbState, script: Result<string, string>, hash: string -> string,
                                         username: string, password: string)
    ensures var r := Initialize(d, db, script, hash, username, password);
      && (r.settled.Returned? && !r.settled.value.success ==> InitFailedPrefix <= r.settled.value.message)
      && (r.settled.Returned? && r.settled.value.success ==>
            && r.settled.value.message == InitSucceeded
            && d.connectError.None? && script.Ok?
            && RunStatements(d, db, Statements(script.value)).error.None?
            && d.queryError(RunStatements(d, db, Statements(script.value)).db, AdminUpsertSql).None?)
  {
    if d.connectError.None? {
      ConnectedFailureHasPrefix(d, db, script, hash, username, password);
      ConnectedSuccessRanEverything(d, db, script, hash, username, password);
    }
  }

  /** A failed `try` body reports its error behind the fixed prefix. */
  lemma ConnectedFailureHasPrefix(d: Driver, db: DbState, script: Result<string, string>, hash: string -> string,
                                  username: string, password: string)
    ensures var result := Connected(d, db, script, hash, username, password).0;
      !result.success ==> InitFailedPrefix <= result.message
  {
  }

  /** A successful `try` body ran every statement and the admin upsert. */
  lemma ConnectedSuccessRanEverything(d: Driver, db: DbState, script: Result<string, string>, hash: string -> string,
                                      username: string, password: string)
    ensures var result := Connected(d, db, script, hash, username, password).0;
      result.success ==>
        && result.message == InitSucceeded
        && script.Ok?
        && RunStatements(d, db, Statements(script.value)).error.None?
        && d.queryError(RunStatements(d, db, Statements(script.value)).db, AdminUpsertSql).None?
  {
  }

  /**
   * When a statement fails, `initializeSystem` reports its message after the
   * fixed prefix, the admin is not written, and the statements before the
   * failing one stay applied: there is no transaction to roll back.
   */
  lemma InitStatementFailureKeepsEarlierStatements(d: Driver, db: DbState, text: string, hash: string -> string,
                                                   username: string, password: string)
    requires d.connectError.None? && d.endError.None?
    requires RunStatements(d, db, Statements(text)).error.Some?
    ensures var statements := Statements(text);
      var k := RunStatements(d, db, statements).executed;
      var r := Initialize(d, db, Ok(text), hash, username, password);
      && k < |statements|
      && r.db == ApplyAll(d, db, statements[..k])
      && d.queryError(r.db, statements[k]).Some?
      && r.settled == Returned(InitFailure(d.queryError(r.db, statements[k]).value))
  {
    RunStopsAtFirstFailure(d, db, Statements(text));
  }

  /**
   * The `for ... of` loop of `initializeSystem`: awaits each query in turn
   * and leaves at the first one that throws.
   */
  method ExecuteStatements(d: Driver, db: DbState, statements: seq<string>) returns (run: Run)
    ensures run == RunStatements(d, db, statements)
  {
    var state := db;
    var i := 0;
    var error: Option<string> := None;
    while i < |statements| && error.None?
      invariant 0 <= i <= |statements|
      invariant error.None? ==>
        var rest := RunStatements(d, state, statements[i..]);
        RunStatements(d, db, statements) == rest.(executed := rest.executed + i)
      invariant error.Some? ==> RunStatements(d, db, statements) == Run(state, i, error)
      decreases |statements| - i, error.None?
    {
      error := d.queryError(state, statements[i]);
      if error.None? {
        state := d.effect(state, statements[i]);
        i := i + 1;
      }
    }
    run := Run(state, i, error);
  }

  /** The `try` body after connecting: read the script, run its statements, upsert the admin. */
  method RunScript(d: Driver, db: DbState, script: Result<string, string>, hash: string -> string,
                   username: string, password: string)
    returns (result: ServiceResult, db': DbState)
    ensures (result, db') == Connected(d, db, script, hash, username, password)
  {
    db' := db;
    match script {
      case Err(e) =>
        result := InitFailure(e);
      case Ok(text) =>
        var run := ExecuteStatements(d, db, Statements(text));
        db' := run.db;
        if run.error.Some? {
          result := InitFailure(run.error.value);
        } else {
          var hashedPassword := hash(password);
          var adminError := d.queryError(db', AdminUpsertSql);
          if adminError.Some? {
            result := InitFailure(adminError.value);
          } else {
            db' := db'.(users := UpsertAdmin(db'.users, username, hashedPassword));
            result := ServiceResult(true, InitSucceeded);
          }
        }
    }
  }

  /**
   * The imperative `initializeSystem`: connect, read the script, run its
   * statements one by one, upsert the admin, and close the connection in
   * `finally`.  Its outcome is `Initialize`'s.
   */
  method InitializeSystem(d: Driver, db: DbState, script: Result<string, string>, hash: string -> string,
                          username: string, password: string)
    returns (settled: Settled<ServiceResult>, db': DbState, closes: nat)
    ensures InitOutcome(settled, db', closes) == Initialize(d, db, script, hash, username, password)
  {
    db', closes := db, 0;
    if d.connectError.Some? {
      // createConnection threw: nothing to close.
      settled := Returned(InitFailure(d.connectError.value));
      return;
    }
    var result: ServiceResult;
    result, db' := RunScript(d, db, script, hash, username, password);
    // finally: the connection was opened, so it is closed.
    closes := 1;
    if d.endError.Some? {
      settled := Rejected(d.endError.value);
    } else {
      settled := Returned(result);
    }
  }

  // ---------------------------------------------------------------------------
  // checkSystemInit, validateDbConfig, login

  /** A decision together with how many times it closed its connection. */
  datatype Closing<T> = Closing(value: T, closes: nat)

  datatype InitCheck = InitCheck(success: bool, initialized: bool, message: string)

  /**
   * `checkSystemInit`, where `rows` is what `SHOW DATABASES LIKE ...` gave:
   * the number of matching schemas, or the error.  A failing query skips
   * `connection.end()`, so that connection is left open.
   */
  function CheckSystemInit(d: Driver, rows: Result<nat, string>): (r: Closing<InitCheck>)
    ensures r.value.success <==> d.connectError.None? && rows.Ok? && d.endError.None?
    ensures r.value.initialized <==> r.value.success && rows.value > 0
    ensures !r.value.success ==>
      r.value.message == "数据库连接失败："
        + (if d.connectError.Some? then d.connectError.value else if rows.Err? then rows.error else d.endError.value)
    ensures r.closes == (if d.connectError.None? && rows.Ok? then 1 else 0)
  {
    if d.connectError.Some? then Closing(InitCheck(false, false, "数据库连接失败：" + d.connectError.value), 0)
    else if rows.Err? then Closing(InitCheck(false, false, "数据库连接失败：" + rows.error), 0)
    else if d.endError.Some? then Closing(InitCheck(false, false, "数据库连接失败：" + d.endError.value), 1)
    else
      var dbExists := rows.value > 0;
      Closing(InitCheck(true, dbExists, if dbExists then "系统已初始化" else "系统未初始化"), 1)
  }

  /** `validateDbConfig`: valid exactly when a connection opens and closes again. */
  function ValidateDbConfig(d: Driver): (r: Closing<ServiceResult>)
    ensures r.value.success <==> d.connectError.None? && d.endError.None?
    ensures r.closes == (if d.connectError.None? then 1 else 0)
    ensures r.value.success ==> r.value.message == "数据库配置有效"
    ensures !r.value.success ==>
      r.value.message == "数据库配置无效：" + (if d.connectError.Some? then d.connectError.value else d.endError.value)
  {
    if d.connectError.Some? then Closing(ServiceResult(false, "数据库配置无效：" + d.connectError.value), 0)
    else if d.endError.Some? then Closing(ServiceResult(false, "数据库配置无效：" + d.endError.value), 1)
    else Closing(ServiceResult(true, "数据库配置有效"), 1)
  }

  /** A row of the `users` table as `SELECT *` returns it. */
  datatype UserRecord = UserRecord(id: int, username: string, password: string, realName: string, isAdmin: int, status: int)

  /** What a successful login hands back: nothing but the id and the username. */
  datatype LoginUser = LoginUser(id: int, username: string)

  datatype LoginResult = LoggedIn(user: LoginUser) | LoginFailed(message: string)

  /**
   * `login(username, password)`, where `rows` is what the `WHERE username = ?`
   * query gave and `compare` is `bcrypt.compare`, an error when bcrypt rejects
   * (a password or stored hash that is not a string, a malformed hash).  The
   * first row is the one checked.  A failing query skips `connection.end()`.
   */
  function Login(d: Driver, rows: Result<seq<UserRecord>, string>, compare: (string, string) -> Result<bool, string>,
                 password: string): (r: Closing<LoginResult>)
    ensures r.value.LoggedIn? <==>
      d.connectError.None? && rows.Ok? && d.endError.None? && |rows.value| > 0
      && compare(password, rows.value[0].password) == Ok(true)
    ensures r.value.LoggedIn? ==> r.value.user == LoginUser(rows.value[0].id, rows.value[0].username)
    ensures d.connectError.None? && rows.Ok? && d.endError.None? && rows.value == [] ==> r.value == LoginFailed("用户不存在")
    ensures (d.connectError.None? && rows.Ok? && d.endError.None? && rows.value != []
             && compare(password, rows.value[0].password) == Ok(false)) ==> r.value == LoginFailed("密码错误")
    ensures !(d.connectError.None? && rows.Ok? && d.endError.None?) ==>
      r.value == LoginFailed("登录失败：" + (if d.connectError.Some? then d.connectError.value
                                            else if rows.Err? then rows.error else d.endError.value))
    ensures (d.connectError.None? && rows.Ok? && d.endError.None? && rows.value != []
             && compare(password, rows.value[0].password).Err?) ==>
      r.value == LoginFailed("登录失败：" + compare(password, rows.value[0].password).error)
    ensures r.closes == (if d.connectError.None? && rows.Ok? then 1 else 0)
  {
    if d.connectError.Some? then Closing(LoginFailed("登录失败：" + d.connectError.value), 0)
    else if rows.Err? then Closing(LoginFailed("登录失败：" + rows.error), 0)
    else if d.endError.Some? then Closing(LoginFailed("登录失败：" + d.endError.value), 1)
    else if |rows.value| == 0 then Closing(LoginFailed("用户不存在"), 1)
    else
      var user := rows.value[0];
      var valid := compare(password, user.password);
      if valid.Err? then Closing(LoginFailed("登录失败：" + valid.error), 1)
      else if !valid.value then Closing(LoginFailed("密码错误"), 1)
      else Closing(LoggedIn(LoginUser(user.id, user.username)), 1)
  }
}
