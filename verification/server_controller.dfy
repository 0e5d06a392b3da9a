/** The server handlers of server/controllers/serverController.js: secret
    stripping of returned records, the preservation of stored secrets on
    update, connection reuse, status reconciliation, the command endpoint
    and the script-location check. The record store is a sequence of
    `Object`s (`Records`); whether a connection is registered and what
    `checkConnection` answers are inputs; command results come from the
    `reply` oracle of the executor. */
module ServerController {
  import opened Maybe
  import opened Text
  import opened JsValues
  import opened Records
  import opened ServerModel
  import opened Executor
  import ScriptRunner

  /** The fields a response never shows. */
  const SECRETS: set<string> := {"password", "privateKey"}

  datatype Answer = Answer(status: nat, success: bool, message: string, data: Option<Object>)

  const NOT_FOUND: string := "服务器未找到"

  // ---------------------------------------------------------------------------
  // records as shown to clients

  /** `const { password, privateKey, ...filtered } = server`. */
  function Strip(record: Object): (shown: Object)
    ensures "password" !in shown && "privateKey" !in shown
    ensures shown.Keys <= record.Keys
    ensures forall k :: k in record && k !in SECRETS ==> k in shown && shown[k] == record[k]
  {
    record - SECRETS
  }

  /** `getAllServers`: every record, in order, stripped. */
  function ListServers(rs: seq<Object>): (shown: seq<Object>)
    ensures |shown| == |rs|
    ensures forall i :: 0 <= i < |rs| ==> shown[i].Keys == rs[i].Keys - SECRETS
    ensures forall i, k :: 0 <= i < |rs| && k in shown[i] ==> shown[i][k] == rs[i][k]
  {
    seq(|rs|, i requires 0 <= i < |rs| => Strip(rs[i]))
  }

  /** `getServer`. */
  function ShowServer(rs: seq<Object>, id: Value): (a: Answer)
    ensures a.status == 404 <==> FindById(rs, id).None?
    ensures a.status == 200 ==> a.data == Some(Strip(FindById(rs, id).value))
  {
    match FindById(rs, id)
    case None => Answer(404, false, NOT_FOUND, None)
    case Some(s) => Answer(200, true, "", Some(Strip(s)))
  }

  datatype Stored = Stored(records: seq<Object>, answer: Answer)

  /** The body fields `createServer` passes on; anything else in the body is
      dropped. */
  const CREATE_FIELDS: set<string> := {"name", "host", "port", "username", "authType", "password", "privateKey"}

  function Pick(body: Object, keys: set<string>): (picked: Object)
    ensures picked.Keys == keys
    ensures forall k :: k in keys ==> picked[k] == Get(body, k)
  {
    map k | k in keys :: Get(body, k)
  }

  /** `createServer`: the record is built from the seven form fields,
      appended, and answered 201 without its secrets. */
  function CreateServer(rs: seq<Object>, body: Object, newId: string, now: string): (s: Stored)
    ensures |s.records| == |rs| + 1 && s.records[..|rs|] == rs
    ensures var created := s.records[|rs|];
      && created == NewServer(Pick(body, CREATE_FIELDS), newId, now)
      && s.answer == Answer(201, true, "服务器添加成功", Some(Strip(created)))
  {
    var created := NewServer(Pick(body, CREATE_FIELDS), newId, now);
    Stored(Create(rs, created), Answer(201, true, "服务器添加成功", Some(Strip(created))))
  }

  /** A client cannot choose the id, status or last connection of a new
      server: those fields of the body are not passed on. */
  lemma CreateIgnoresControlFields(rs: seq<Object>, body: Object, newId: string, now: string)
    requires newId != ""
    ensures var created := CreateServer(rs, body, newId, now).records[|rs|];
      && created["_id"] == Str(newId)
      && created["status"] == Str("offline")
      && created["lastConnection"] == Null
      && created["password"] == Get(body, "password")
  {
    var picked := Pick(body, CREATE_FIELDS);
    assert "_id" !in picked && "status" !in picked && "lastConnection" !in picked;
    assert "password" in picked;
  }

  /** The update `updateServer` applies: a falsy `password` or `privateKey`
      is deleted from the body first. */
  function WithoutEmptySecrets(body: Object): (u: Object)
    ensures forall k :: k in SECRETS ==> (k in u <==> Truthy(Get(body, k)))
    ensures forall k :: k in u ==> k in body && u[k] == body[k]
    ensures forall k :: k in body && k !in SECRETS ==> k in u
  {
    body - (set k | k in SECRETS && !Truthy(Get(body, k)))
  }

  /** `updateServer`. */
  function UpdateServer(rs: seq<Object>, id: Value, body: Object, now: string): (s: Stored)
    ensures FindIndex(rs, id).None? ==> s == Stored(rs, Answer(404, false, NOT_FOUND, None))
    ensures FindIndex(rs, id).Some? ==>
      var c := UpdateById(rs, id, WithoutEmptySecrets(body), now);
      s == Stored(c.records, Answer(200, true, "服务器信息更新成功", Some(Strip(c.result.value))))
  {
    var c := UpdateById(rs, id, WithoutEmptySecrets(body), now);
    match c.result
    case None => Stored(rs, Answer(404, false, NOT_FOUND, None))
    case Some(updated) => Stored(c.records, Answer(200, true, "服务器信息更新成功", Some(Strip(updated))))
  }

  /** An update that leaves a secret empty keeps the stored one; a non-empty
      secret replaces it. Neither is ever shown. */
  lemma UpdateKeepsSecrets(rs: seq<Object>, id: Value, body: Object, now: string, k: string)
    requires FindIndex(rs, id).Some? && k in SECRETS
    ensures var i := FindIndex(rs, id).value;
      var after := UpdateServer(rs, id, body, now);
      && k !in after.answer.data.value
      && (!Truthy(Get(body, k)) ==> (k in after.records[i] <==> k in rs[i]))
      && (!Truthy(Get(body, k)) && k in rs[i] ==> after.records[i][k] == rs[i][k])
      && (Truthy(Get(body, k)) ==> after.records[i][k] == body[k])
  {
  }

  datatype Removed = Removed(records: seq<Object>, disconnected: bool, answer: Answer)

  /** `deleteServer`: a registered connection is closed first (even when
      the record then turns out not to exist). */
  function DeleteServer(rs: seq<Object>, id: Value, registered: bool): (r: Removed)
    ensures r.disconnected == registered
    ensures r.answer.status == 404 <==> FindIndex(rs, id).None?
    ensures r.records == DeleteById(rs, id).records
  {
    var c := DeleteById(rs, id);
    if c.result.None? then Removed(rs, registered, Answer(404, false, NOT_FOUND, None))
    else Removed(c.records, registered, Answer(200, true, "服务器已删除", None))
  }

  // ---------------------------------------------------------------------------
  // connecting

  /** What `sshService.connect` did: opened a session (and, on `ready`,
      recorded the server online with a connection time); failed through
      the connection's `error` event, whose handler records the server
      `error` without a connection time; or threw from `conn.connect`
      before any event, so that `connect` itself writes nothing. */
  datatype Attempted = Opened(message: string) | NotOpened(error: string) | Threw(error: string)

  datatype Connecting = Connecting(records: seq<Object>, reconnected: bool, answer: Answer)

  function StatusUpdate(status: string, now: string): Object {
    map["status" := Str(status), "lastConnection" := Str(now), "updatedAt" := Str(now)]
  }

  /** `_updateServerStatus(serverId, 'error')`: the status becomes `error`
      and `lastConnection` is set to `undefined`, which the JSON file drops. */
  function ErrorStatus(now: string): Object {
    map["status" := Str("error"), "lastConnection" := Undefined, "updatedAt" := Str(now)]
  }

  /** The store after `checkConnection` has looked at a registered
      connection: a failing check evicts it and marks the server `error`.
      Without a registered connection the handlers do not call it. */
  function AfterCheck(rs: seq<Object>, id: Value, registered: bool, checkOk: bool, now: string): (after: seq<Object>)
    ensures !registered || checkOk ==> after == rs
    ensures registered && !checkOk ==> after == UpdateById(rs, id, ErrorStatus(now), now).records
  {
    if registered && !checkOk then UpdateById(rs, id, ErrorStatus(now), now).records else rs
  }

  /** `connectServer`: a registered connection that passes the check is
      reused (and the record marked online); otherwise `connect` is called.
      A failing check has already marked the record `error`. A connect
      that fails through the `error` event marks it `error` twice more,
      once from the event and once in the handler's `catch`; one that
      throws is marked only by the `catch`, which keeps `lastConnection`. */
  function ConnectServer(rs: seq<Object>, id: Value, registered: bool, valid: bool,
                         attempt: Attempted, now: string): (c: Connecting)
    ensures FindById(rs, id).None? ==> c == Connecting(rs, false, Answer(404, false, NOT_FOUND, None))
    ensures FindById(rs, id).Some? ==> (c.reconnected <==> !(registered && valid))
    ensures FindById(rs, id).Some? && registered && valid ==>
      && c.answer.status == 200
      && c.records == UpdateById(rs, id, StatusUpdate("online", now), now).records
    ensures c.reconnected && attempt.Opened? ==>
      && c.answer.status == 200 && c.answer.message == attempt.message
      && c.records == UpdateById(AfterCheck(rs, id, registered, valid, now), id, StatusUpdate("online", now), now).records
    ensures c.reconnected && attempt.NotOpened? ==>
      && c.answer.status == 500
      && c.records == UpdateById(UpdateById(AfterCheck(rs, id, registered, valid, now), id, ErrorStatus(now), now).records,
                                 id, map["status" := Str("error"), "updatedAt" := Str(now)], now).records
    ensures c.reconnected && attempt.Threw? ==>
      && c.answer.status == 500
      && c.records == UpdateById(AfterCheck(rs, id, registered, valid, now),
                                 id, map["status" := Str("error"), "updatedAt" := Str(now)], now).records
    ensures c.reconnected && !attempt.Opened? ==>
      c.answer.data == Some(map["serverStatus" := Str("error"), "error" := Str(attempt.error)])
  {
    if FindById(rs, id).None? then Connecting(rs, false, Answer(404, false, NOT_FOUND, None))
    else if registered && valid then
      Connecting(UpdateById(rs, id, StatusUpdate("online", now), now).records, false,
                 Answer(200, true, "服务器已连接", Some(map["serverStatus" := Str("online")])))
    else
      var checked := AfterCheck(rs, id, registered, valid, now);
      match attempt
      case Opened(m) =>
        var after := UpdateById(checked, id, StatusUpdate("online", now), now).records;
        Connecting(after, true, Answer(200, true, m, Some(map["serverStatus" := Str("online"), "connectionTime" := Str(now)])))
      case NotOpened(e) =>
        var failed := UpdateById(checked, id, ErrorStatus(now), now).records;
        Connecting(UpdateById(failed, id, map["status" := Str("error"), "updatedAt" := Str(now)], now).records, true,
                   Answer(500, false, "连接服务器失败", Some(map["serverStatus" := Str("error"), "error" := Str(e)])))
      case Threw(e) =>
        Connecting(UpdateById(checked, id, map["status" := Str("error"), "updatedAt" := Str(now)], now).records, true,
                   Answer(500, false, "连接服务器失败", Some(map["serverStatus" := Str("error"), "error" := Str(e)])))
  }

  /** Whichever path `connectServer` takes, a successful answer leaves the
      record online. */
  lemma ConnectedMeansOnline(rs: seq<Object>, id: Value, registered: bool, valid: bool,
                             attempt: Attempted, now: string)
    requires FindById(rs, id).Some?
    ensures var c := ConnectServer(rs, id, registered, valid, attempt, now);
      c.answer.status == 200 ==>
        && FindById(c.records, id).Some?
        && Get(FindById(c.records, id).value, "status") == Str("online")
  {
    var checked := AfterCheck(rs, id, registered, valid, now);
    if registered && !valid {
      UpdatedField(rs, id, ErrorStatus(now), now, "status");
    }
    UpdatedField(checked, id, StatusUpdate("online", now), now, "status");
    UpdatedField(rs, id, StatusUpdate("online", now), now, "status");
  }

  /** A connect that fails through the connection's `error` event leaves
      the record marked `error` with its last connection time gone. */
  lemma FailedConnectErases(rs: seq<Object>, id: Value, registered: bool, valid: bool, e: string, now: string)
    requires FindById(rs, id).Some? && !(registered && valid)
    ensures var c := ConnectServer(rs, id, registered, valid, NotOpened(e), now);
      && c.answer.status == 500
      && FindById(c.records, id).Some?
      && Get(FindById(c.records, id).value, "status") == Str("error")
      && Get(FindById(c.records, id).value, "lastConnection") == Undefined
  {
    var checked := AfterCheck(rs, id, registered, valid, now);
    if registered && !valid {
      UpdatedField(rs, id, ErrorStatus(now), now, "status");
    }
    var failed := UpdateById(checked, id, ErrorStatus(now), now).records;
    UpdatedField(checked, id, ErrorStatus(now), now, "lastConnection");
    UpdatedField(failed, id, map["status" := Str("error"), "updatedAt" := Str(now)], now, "status");
    UpdatedField(failed, id, map["status" := Str("error"), "updatedAt" := Str(now)], now, "lastConnection");
  }
  /** A connect that throws before any event leaves the record marked
      `error` but keeps its last connection time, unless a failing check of
      a registered connection had already dropped it. */
  lemma ThrownConnectKeepsLastConnection(rs: seq<Object>, id: Value, registered: bool, valid: bool,
                                         e: string, now: string)
    requires FindById(rs, id).Some? && !(registered && valid)
    ensures var c := ConnectServer(rs, id, registered, valid, Threw(e), now);
      && c.answer.status == 500
      && FindById(c.records, id).Some?
      && Get(FindById(c.records, id).value, "status") == Str("error")
      && Get(FindById(c.records, id).value, "lastConnection")
         == if registered then Undefined else Get(FindById(rs, id).value, "lastConnection")
  {
    var checked := AfterCheck(rs, id, registered, valid, now);
    StatusFieldsAfter(rs, id, ErrorStatus(now), now);
    StatusFieldsAfter(checked, id, map["status" := Str("error"), "updatedAt" := Str(now)], now);
  }


  // ---------------------------------------------------------------------------
  // status reconciliation

  /** The status `checkServerStatus` writes back, if any: `online` for a
      valid connection not stored as online, `offline` for an invalid one
      stored as online. */
  function Reconciled(stored: Value, valid: bool): (next: Option<string>)
    ensures next == Some("online") <==> valid && stored != Str("online")
    ensures next == Some("offline") <==> !valid && stored == Str("online")
    ensures next.None? <==> (valid <==> stored == Str("online"))
  {
    if valid && stored != Str("online") then Some("online")
    else if !valid && stored == Str("online") then Some("offline")
    else None
  }

  /** The status reported: `online` for a valid connection, else `error` or
      `offline` after the stored status. */
  function Reported(stored: Value, valid: bool): (s: string)
    ensures s == "online" <==> valid
    ensures s == "error" <==> !valid && stored == Str("error")
    ensures s == "offline" <==> !valid && stored != Str("error")
  {
    if valid then "online" else if stored == Str("error") then "error" else "offline"
  }

  /** `checkServerStatus`: the record is read first; the connection counts
      as valid only when one is registered and passes the check, and a
      failing check marks the record `error` before the reconciliation,
      which compares against the status read at the start. The answer
      reports that earlier status and last connection time. */
  function CheckServerStatus(rs: seq<Object>, id: Value, registered: bool, checkOk: bool, now: string): (s: Stored)
    ensures FindById(rs, id).None? ==> s == Stored(rs, Answer(404, false, NOT_FOUND, None))
    ensures FindById(rs, id).Some? ==>
      var server := FindById(rs, id).value;
      var stored := Get(server, "status");
      var valid := registered && checkOk;
      var checked := AfterCheck(rs, id, registered, checkOk, now);
      && s.answer.status == 200
      && s.answer.data.Some?
      && "status" in s.answer.data.value && s.answer.data.value["status"] == Str(Reported(stored, valid))
      && "lastConnection" in s.answer.data.value && s.answer.data.value["lastConnection"] == Get(server, "lastConnection")
      && (Reconciled(stored, valid).None? ==> s.records == checked)
      && (Reconciled(stored, valid).Some? ==>
            s.records == UpdateById(checked, id, map["status" := Str(Reconciled(stored, valid).value), "updatedAt" := Str(now)], now).records)
  {
    match FindById(rs, id)
    case None => Stored(rs, Answer(404, false, NOT_FOUND, None))
    case Some(server) =>
      var stored := Get(server, "status");
      var valid := registered && checkOk;
      var checked := AfterCheck(rs, id, registered, checkOk, now);
      var next := Reconciled(stored, valid);
      var after := if next.None? then checked
                   else UpdateById(checked, id, map["status" := Str(next.value), "updatedAt" := Str(now)], now).records;
      var data := map["status" := Str(Reported(stored, valid)), "lastConnection" := Get(server, "lastConnection"),
                      "backendConnected" := Bool(registered), "backendConnectionValid" := Bool(valid)];
      Stored(after, Answer(200, true, "", Some(data)))
  }

  /** The status stored after a check: online for a valid connection;
      otherwise offline if it was online, `error` after a failing check, and
      unchanged when no connection was registered. A failing check also
      drops the last connection time. */
  function StatusAfterCheck(stored: Value, registered: bool, checkOk: bool): Value {
    if registered && checkOk then Str("online")
    else if stored == Str("online") then Str("offline")
    else if registered then Str("error")
    else stored
  }

  lemma StoredAfterCheck(rs: seq<Object>, id: Value, registered: bool, checkOk: bool, now: string)
    requires FindById(rs, id).Some?
    ensures var server := FindById(rs, id).value;
      var after := CheckServerStatus(rs, id, registered, checkOk, now).records;
      && FindById(after, id).Some?
      && Get(FindById(after, id).value, "status") == StatusAfterCheck(Get(server, "status"), registered, checkOk)
      && Get(FindById(after, id).value, "lastConnection")
         == if registered && !checkOk then Undefined else Get(server, "lastConnection")
  {
    var server := FindById(rs, id).value;
    var stored := Get(server, "status");
    var checked := AfterCheck(rs, id, registered, checkOk, now);
    if registered && !checkOk {
      UpdatedField(rs, id, ErrorStatus(now), now, "status");
      UpdatedField(rs, id, ErrorStatus(now), now, "lastConnection");
    }
    var next := Reconciled(stored, registered && checkOk);
    if next.Some? {
      var u := map["status" := Str(next.value), "updatedAt" := Str(now)];
      UpdatedField(checked, id, u, now, "status");
      UpdatedField(checked, id, u, now, "lastConnection");
    }
  }

  /** After a check the stored status is online exactly when the connection
      is valid; a failing check evicts the connection, so the next check
      finds none registered, and that check writes nothing. */
  lemma ReconciliationConverges(rs: seq<Object>, id: Value, registered: bool, checkOk: bool, now: string, later: string)
    requires FindById(rs, id).Some?
    ensures var after := CheckServerStatus(rs, id, registered, checkOk, now).records;
      && FindById(after, id).Some?
      && (Get(FindById(after, id).value, "status") == Str("online") <==> registered && checkOk)
      && CheckServerStatus(after, id, registered && checkOk, checkOk, later).records == after
  {
    StoredAfterCheck(rs, id, registered, checkOk, now);
  }

  /** The status reported agrees with the status stored afterwards, except
      when a registered connection fails the check on a server stored as
      offline: the record then says `error` while the answer says
      `offline`. */
  lemma ReportedMatchesStored(rs: seq<Object>, id: Value, registered: bool, checkOk: bool, now: string)
    requires FindById(rs, id).Some?
    requires Get(FindById(rs, id).value, "status") in {Str("online"), Str("offline"), Str("error")}
    ensures var stored := Get(FindById(rs, id).value, "status");
      var s := CheckServerStatus(rs, id, registered, checkOk, now);
      && s.answer.data.Some? && "status" in s.answer.data.value && FindById(s.records, id).Some?
      && ((s.answer.data.value["status"] == Get(FindById(s.records, id).value, "status"))
            <==> !(registered && !checkOk && stored == Str("offline")))
  {
    StoredAfterCheck(rs, id, registered, checkOk, now);
  }

  // ---------------------------------------------------------------------------
  // the command endpoint

  /** What a handler ends with: an answer, or an exception escaping its own
      `catch` block, after which no answer is sent. */
  datatype Handled = Answered(answer: Answer) | Unanswered(error: string)

  /** A handled command request: the commands handed to the executor, whether
      `connect` was called, the outcome, and the server records afterwards. */
  datatype CommandRun = CommandRun(issued: seq<string>, reconnected: bool, outcome: Handled, records: seq<Object>)

  /** The status and last connection time a single record update leaves. */
  lemma StatusFieldsAfter(rs: seq<Object>, id: Value, update: Object, now: string)
    requires FindById(rs, id).Some? && "_id" !in update
    ensures var after := UpdateById(rs, id, update, now).records;
      && FindById(after, id).Some?
      && Get(FindById(after, id).value, "status")
         == (if "status" in update then update["status"] else Get(FindById(rs, id).value, "status"))
      && Get(FindById(after, id).value, "lastConnection")
         == (if "lastConnection" in update then update["lastConnection"] else Get(FindById(rs, id).value, "lastConnection"))
  {
    UpdatedField(rs, id, update, now, "status");
    UpdatedField(rs, id, update, now, "lastConnection");
  }

  /** The records once `executeCommand` has passed its connection steps.
      Without a registered connection `connect` runs, which records the
      server online on `ready` or error from the connection's `error`
      event, and writes nothing when it throws; a connection then present
      is checked, and a failing check evicts it and records error without
      a last connection time. A missing command or server writes nothing. */
  function CommandStore(rs: seq<Object>, id: Value, command: Value, registered: bool,
                        attempt: Attempted, checkOk: bool, now: string): (after: seq<Object>)
    ensures !Truthy(command) || FindById(rs, id).None? ==> after == rs
    ensures Truthy(command) && !registered && attempt.Threw? ==> after == rs
    ensures Truthy(command) && FindById(rs, id).Some? && !(!registered && attempt.Threw?) ==>
      var server := FindById(rs, id).value;
      var failed := (!registered && attempt.NotOpened?) || !checkOk;
      && FindById(after, id).Some?
      && Get(FindById(after, id).value, "status")
         == (if failed then Str("error") else if registered then Get(server, "status") else Str("online"))
      && Get(FindById(after, id).value, "lastConnection")
         == (if failed then Undefined else if registered then Get(server, "lastConnection") else Str(now))
  {
    if !Truthy(command) || FindById(rs, id).None? then rs
    else
      var update := if attempt.Opened? then StatusUpdate("online", now) else ErrorStatus(now);
      StatusFieldsAfter(rs, id, update, now);
      var connected := if registered || attempt.Threw? then rs else UpdateById(rs, id, update, now).records;
      StatusFieldsAfter(connected, id, ErrorStatus(now), now);
      if !registered && !attempt.Opened? then connected else AfterCheck(connected, id, true, checkOk, now)
  }

  /** The path through `executeCommand` up to the command itself; `None`
      when it goes on to run the command. */
  function CommandChecks(rs: seq<Object>, id: Value, command: Value, registered: bool,
                         attempt: Attempted, checkOk: bool, now: string): (r: Option<CommandRun>)
    ensures !Truthy(command) ==> r == Some(CommandRun([], false, Answered(Answer(400, false, "命令不能为空", None)), rs))
    ensures r.None? <==> Truthy(command) && FindById(rs, id).Some? && (registered || attempt.Opened?) && checkOk
    ensures r.Some? ==> r.value.records == CommandStore(rs, id, command, registered, attempt, checkOk, now)
  {
    var after := CommandStore(rs, id, command, registered, attempt, checkOk, now);
    if !Truthy(command) then Some(CommandRun([], false, Answered(Answer(400, false, "命令不能为空", None)), rs))
    else if FindById(rs, id).None? then Some(CommandRun([], false, Answered(Answer(404, false, NOT_FOUND, None)), rs))
    else if !registered && !attempt.Opened? then
      Some(CommandRun([], true, Answered(Answer(400, false, "服务器未连接，请先连接服务器",
                                                Some(map["error" := Str(attempt.error)]))), after))
    else if !checkOk then
      Some(CommandRun([], !registered, Answered(Answer(400, false, "SSH连接无效，请重新连接服务器", None)), after))
    else None
  }

  /** The answer to a command the executor resolved. */
  function CommandOutput(code: Option<int>, stdout: string, stderr: string): Answer {
    Answer(200, true, "", Some(map["stdout" := Str(stdout), "stderr" := Str(stderr),
                                   "code" := if code.Some? then Num(code.value) else Null]))
  }

  /** `executeCommand` as written: the `catch` block reads `serverId`, which
      was declared inside the `try` block, so an executor failure raises a
      `ReferenceError` and the request is never answered. */
  function ExecuteCommandAsWritten(rs: seq<Object>, id: Value, command: Value, registered: bool,
                                   attempt: Attempted, checkOk: bool, reply: string -> ExecResult,
                                   now: string): (r: CommandRun)
    ensures CommandChecks(rs, id, command, registered, attempt, checkOk, now).None? ==>
      (r.outcome.Unanswered? <==> reply(ToStr(command)).Rejected?)
    ensures r.records == CommandStore(rs, id, command, registered, attempt, checkOk, now)
  {
    match CommandChecks(rs, id, command, registered, attempt, checkOk, now)
    case Some(early) => early
    case None =>
      var after := CommandStore(rs, id, command, registered, attempt, checkOk, now);
      match reply(ToStr(command))
      case Resolved(code, out, err) => CommandRun([ToStr(command)], !registered, Answered(CommandOutput(code, out, err)), after)
      case Rejected(_, _) => CommandRun([ToStr(command)], !registered, Unanswered("serverId is not defined"), after)
  }

  /** `executeCommand` as intended: an executor failure is answered 500 with
      the failure's message. */
  function ExecuteCommand(rs: seq<Object>, id: Value, command: Value, registered: bool,
                          attempt: Attempted, checkOk: bool, reply: string -> ExecResult,
                          now: string): (r: CommandRun)
    ensures r.outcome.Answered?
    ensures !Truthy(command) ==> r.issued == [] && r.outcome.answer.status == 400
    ensures |r.issued| <= 1
    ensures r.issued == [] <==> CommandChecks(rs, id, command, registered, attempt, checkOk, now).Some?
    ensures r.records == CommandStore(rs, id, command, registered, attempt, checkOk, now)
    ensures r.issued != [] ==>
      && r.issued == [ToStr(command)]
      && (r.outcome.answer.status == 200 <==> reply(ToStr(command)).Resolved?)
      && (reply(ToStr(command)).Rejected? ==>
            r.outcome.answer == Answer(500, false, "执行命令失败", Some(map["error" := Str(reply(ToStr(command)).message)])))
  {
    match CommandChecks(rs, id, command, registered, attempt, checkOk, now)
    case Some(early) => early
    case None =>
      var after := CommandStore(rs, id, command, registered, attempt, checkOk, now);
      match reply(ToStr(command))
      case Resolved(code, out, err) => CommandRun([ToStr(command)], !registered, Answered(CommandOutput(code, out, err)), after)
      case Rejected(_, m) =>
        CommandRun([ToStr(command)], !registered,
                   Answered(Answer(500, false, "执行命令失败", Some(map["error" := Str(m)]))), after)
  }

  /** The two agree on every request except those whose command the executor
      rejects, which only the corrected handler answers. */
  lemma AsWrittenDiffersOnlyOnFailure(rs: seq<Object>, id: Value, command: Value, registered: bool,
                                      attempt: Attempted, checkOk: bool, reply: string -> ExecResult, now: string)
    ensures var w := ExecuteCommandAsWritten(rs, id, command, registered, attempt, checkOk, reply, now);
      var c := ExecuteCommand(rs, id, command, registered, attempt, checkOk, reply, now);
      && (w == c <==> w.outcome.Answered?)
      && w.issued == c.issued
  {
  }

  /** A concrete request the as-written handler leaves unanswered: a known,
      connected server whose command the executor gives up on. */
  lemma FailedCommandGoesUnanswered(server: Object, now: string)
    requires Get(server, "_id") == Str("s1")
    ensures var reply := (cmd: string) => Rejected(NoConnection, "SSH连接不存在，服务器ID: s1，已达到最大重试次数");
      && ExecuteCommandAsWritten([server], Str("s1"), Str("uptime"), true, Opened(""), true, reply, now).outcome.Unanswered?
      && ExecuteCommand([server], Str("s1"), Str("uptime"), true, Opened(""), true, reply, now).outcome.answer.status == 500
  {
    assert FindIndex([server], Str("s1")) == Some(0);
  }

  // ---------------------------------------------------------------------------
  // where the script is installed

  const EXISTS_PROBE: string :=
    "test -f ~/Nftato.sh && echo \"exists_home\" || test -f /root/Nftato.sh && echo \"exists_root\" || echo \"not_found\""

  /** `checkScriptExists`'s reading of the probe output: installed when
      either marker occurs, located in the home directory first. */
  function Location(stdout: string): (r: (bool, string))
    ensures r.0 <==> Contains(stdout, "exists_home") || Contains(stdout, "exists_root")
    ensures r.1 == "~/Nftato.sh" <==> Contains(stdout, "exists_home")
    ensures r.1 == "/root/Nftato.sh" <==> !Contains(stdout, "exists_home") && Contains(stdout, "exists_root")
    ensures r.1 == "" <==> !r.0
  {
    var installed := Contains(stdout, "exists_home") || Contains(stdout, "exists_root");
    var location := if Contains(stdout, "exists_home") then "~/Nftato.sh"
                    else if Contains(stdout, "exists_root") then "/root/Nftato.sh" else "";
    (installed, location)
  }

  /** The controller and the script runner disagree when both copies are
      reported: here the home copy wins, there the root copy does. */
  lemma OppositePriority()
    ensures Location("exists_home\nexists_root").1 == "~/Nftato.sh"
    ensures ScriptRunner.ChosenPath("exists in home\nexists in root") == ScriptRunner.ROOT_PATH
  {
    assert At("exists_home\nexists_root", 0, "exists_home");
    assert At("exists in home\nexists in root", 15, "exists in root");
  }

  datatype ScriptCheck = ScriptCheck(issued: seq<string>, answer: Answer, installed: bool, location: string,
                                     upgrade: Option<(string, string)>, records: seq<Object>)

  /** `checkScriptExists`: after the record and connection checks the probe
      is run; when the script is there, the upgrade action 21 is run too, and
      its failure only leaves `upgradeResult` null. */
  function CheckScriptExists(rs: seq<Object>, id: Value, registered: bool, checkOk: bool,
                             reply: string -> ExecResult, now: string): (c: ScriptCheck)
    ensures (FindById(rs, id).None? || !registered || !checkOk) ==> c.issued == [] && c.answer.status in {400, 404}
    ensures FindById(rs, id).Some? && registered && checkOk ==>
      && |c.issued| >= 1 && c.issued[0] == EXISTS_PROBE
      && (c.answer.status == 200 <==> reply(EXISTS_PROBE).Resolved?)
      && (reply(EXISTS_PROBE).Resolved? ==>
            && (c.installed, c.location) == Location(reply(EXISTS_PROBE).stdout)
            && (|c.issued| == 2 <==> c.installed)
            && (c.installed ==>
                  && c.issued[1] == "bash " + c.location + " 21"
                  && (c.upgrade.Some? <==> reply(c.issued[1]).Resolved?)))
    ensures c.records == if FindById(rs, id).Some? then AfterCheck(rs, id, registered, checkOk, now) else rs
  {
    if FindById(rs, id).None? then ScriptCheck([], Answer(404, false, NOT_FOUND, None), false, "", None, rs)
    else if !registered then ScriptCheck([], Answer(400, false, "服务器未连接，请先连接服务器", None), false, "", None, rs)
    else if !checkOk then
      ScriptCheck([], Answer(400, false, "SSH连接无效，请重新连接服务器", None), false, "", None,
                  AfterCheck(rs, id, registered, checkOk, now))
    else match reply(EXISTS_PROBE)
      case Rejected(_, m) =>
        ScriptCheck([EXISTS_PROBE], Answer(500, false, "检查脚本存在状态失败", Some(map["error" := Str(m)])), false, "", None, rs)
      case Resolved(_, out, _) =>
        var (installed, location) := Location(out);
        var message := if installed then "Nftato脚本已部署" else "Nftato脚本未部署";
        if !installed then ScriptCheck([EXISTS_PROBE], Answer(200, true, message, None), false, location, None, rs)
        else
          var path := if location == "~/Nftato.sh" then "~/Nftato.sh" else "/root/Nftato.sh";
          var upgrade := "bash " + path + " 21";
          var result := match reply(upgrade)
                        case Resolved(_, o, e) => Some((o, e))
                        case Rejected(_, _) => None;
          ScriptCheck([EXISTS_PROBE, upgrade], Answer(200, true, message, None), true, location, result, rs)
  }
}
