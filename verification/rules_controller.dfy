/** The HTTP handlers of server/controllers/rulesController.js: required-field
    checks, the status mapping, the write-through of successful reads into
    the rule cache, the port-format check and cache refresh of
    `disallowInboundPorts`, the parameter defaults of
    `setupCustomPortProtection`, and the cache endpoints. The remote side is
    the oracle of the script runner; the cache is the file of `RulesCache`
    holding the service replies' data. */
module RulesController {
  import opened Maybe
  import opened Text
  import opened JsValues
  import opened Executor
  import opened Nftables
  import opened RulesCache
  import opened PortPattern

  /** What the service layer meets: whether a connection is registered,
      what `checkConnection` answers, and the command replies. */
  datatype Remote = Remote(registered: bool, connected: bool, reply: string -> ExecResult)

  /** The JSON answer: status, `success`, `data`, `message` and `error`
      (absent fields are `Absent`/`None`). */
  datatype Response = Response(status: nat, success: bool, data: Data, message: Option<string>, error: Option<string>)

  /** What the shared cache holds under a key: data a read returned, or a
      value a client stored through `updateCacheItem`. */
  datatype Cached = Returned(data: Data) | Stored(value: Value)

  type Cache = CacheFile<Cached>

  /** A handled request: the response, the cache file afterwards, and
      whether the service layer was called at all. */
  datatype Handled = Handled(response: Response, cache: Cache, called: bool)

  /** A 400 refusal of a request that lacks a required field. */
  function Refusal(message: string): Response {
    Response(400, false, Absent, Some(message), None)
  }

  /** The 500 answer of a handler whose service method does not exist: the
      `TypeError` of the call is caught and its message reported. */
  function MissingMethod(message: string, name: string): Response {
    Response(500, false, Absent, Some(message), Some("nftablesService." + name + " is not a function"))
  }

  /** `res.status(result.success ? 200 : 400)`. */
  function StatusOf(success: bool): nat {
    if success then 200 else 400
  }

  /** The cache key a read writes its data under; the other operations
      write nothing. */
  function ReadKey(op: Operation): (k: Option<string>)
    ensures k.Some? <==> op in {GetBlockList, GetInboundPorts, GetInboundIPs, GetSshPort}
  {
    match op
    case GetBlockList => Some("blockList")
    case GetInboundPorts => Some("inboundPorts")
    case GetInboundIPs => Some("inboundIPs")
    case GetSshPort => Some("sshPortStatus")
    case _ => None
  }

  /** The body field an operation with parameters requires, and the message
      of its 400 reply. */
  function RequiredMessage(op: Operation): string {
    match op
    case BlockCustomKeyword => "关键词不能为空"
    case UnblockCustomKeyword => "关键词不能为空"
    case AllowInboundIPs => "IP不能为空"
    case DisallowInboundIPs => "IP不能为空"
    case _ => "端口不能为空"
  }

  /** The handler of every operation except `disallowInboundPorts`: `field`
      is the request-body value the operation takes (`ports`, `keyword` or
      `ips`), ignored by the parameterless ones. */
  function Forward(op: Operation, id: string, field: Value, remote: Remote,
                   cache: Cache, now: string, writeOk: bool): (h: Handled)
    requires op != DisallowInboundPorts
    ensures TakesParams(op) && !Truthy(field) ==> h == Handled(Refusal(RequiredMessage(op)), cache, false)
    ensures h.called <==> !TakesParams(op) || Truthy(field)
    ensures h.called ==>
      var rep := Operate(op, remote.registered, remote.connected, ToStr(field), remote.reply);
      && h.response.success == rep.success
      && h.response.status == (if rep.success then 200 else 400)
      && h.response.data == rep.data
      && h.response.error == rep.error
    ensures ReadKey(op).None? || !h.response.success ==> h.cache == cache
  {
    if TakesParams(op) && !Truthy(field) then Handled(Refusal(RequiredMessage(op)), cache, false)
    else
      var rep := Operate(op, remote.registered, remote.connected, ToStr(field), remote.reply);
      var cache' := if rep.success && ReadKey(op).Some?
                    then UpdateItem(cache, id, ReadKey(op).value, Returned(rep.data), now, writeOk).file
                    else cache;
      Handled(Response(StatusOf(rep.success), rep.success, rep.data, None, rep.error), cache', true)
  }

  /** A successful read is written through: in a cache file of its own,
      reading the cache afterwards gives the data just returned, under the
      read's key; in the rule model's array-shaped file nothing is read
      back. Entries of other servers are untouched either way. */
  lemma ReadWritesThrough(op: Operation, id: string, other: string, remote: Remote,
                          cache: Cache, now: string)
    requires ReadKey(op).Some? && other != id
    ensures var h := Forward(op, id, Undefined, remote, cache, now, true);
      var rep := Operate(op, remote.registered, remote.connected, "undefined", remote.reply);
      && (rep.success && OwnFile(cache) ==>
            && GetServer(h.cache, id).Some?
            && ReadKey(op).value in GetServer(h.cache, id).value.data
            && GetServer(h.cache, id).value.data[ReadKey(op).value] == Returned(rep.data)
            && LastUpdate(h.cache, id) == Some(now))
      && (rep.success && !OwnFile(cache) ==> GetServer(h.cache, id).None?)
      && GetServer(h.cache, other) == GetServer(cache, other)
      && (!rep.success ==> h.cache == cache)
  {
    var rep := Operate(op, remote.registered, remote.connected, "undefined", remote.reply);
    ReadCache(op, id, remote, cache, now);
    if rep.success {
      UpdateThenGet(cache, id, ReadKey(op).value, Returned(rep.data), now);
      UpdateKeepsOthers(cache, id, ReadKey(op).value, Returned(rep.data), now, other);
    }
  }

  /** The cache after a read: the write-through of a success, else unchanged. */
  lemma ReadCache(op: Operation, id: string, remote: Remote, cache: Cache, now: string)
    requires ReadKey(op).Some?
    ensures var rep := Operate(op, remote.registered, remote.connected, "undefined", remote.reply);
      Forward(op, id, Undefined, remote, cache, now, true).cache
        == if rep.success then UpdateItem(cache, id, ReadKey(op).value, Returned(rep.data), now, true).file else cache
  {
  }

  /** The outcome of the cache write never reaches the client. */
  lemma ForwardAnswerIgnoresCache(op: Operation, id: string, field: Value, remote: Remote,
                                  cache: Cache, now: string)
    requires op != DisallowInboundPorts
    ensures Forward(op, id, field, remote, cache, now, true).response
         == Forward(op, id, field, remote, cache, now, false).response
    ensures Forward(op, id, field, remote, cache, now, false).cache == cache
  {
  }

  // ---------------------------------------------------------------------------
  // disallowInboundPorts

  const PORTS_EMPTY: string := "端口不能为空"
  const PORTS_FORMAT: string := "端口格式无效，请使用逗号分隔的端口或端口范围，如：80,443,8080-8090"
  const SSH_REFUSED: string := "无法取消SSH端口的放行"

  /** Whether a service error is the SSH-port protection refusal. */
  predicate MentionsSsh(error: Option<string>) {
    error.Some? && Contains(error.value, "SSH")
  }

  /** The follow-up of a successful disallow: the inbound ports are listed
      again and, when that succeeds, cached. */
  function RefreshPorts(id: string, remote: Remote, cache: Cache, now: string, writeOk: bool): (after: Cache)
    ensures var listing := Operate(GetInboundPorts, remote.registered, remote.connected, "", remote.reply);
      && (!listing.success ==> after == cache)
      && (listing.success ==> after == UpdateItem(cache, id, "inboundPorts", Returned(listing.data), now, writeOk).file)
  {
    var listing := Operate(GetInboundPorts, remote.registered, remote.connected, "", remote.reply);
    if listing.success then UpdateItem(cache, id, "inboundPorts", Returned(listing.data), now, writeOk).file
    else cache
  }

  /** `disallowInboundPorts`: a missing or malformed port list is refused
      before the service is called; the format check is the regular
      expression, run as the automaton of `PortPattern`. After a successful
      disallow the port listing is refreshed. An error mentioning SSH is
      answered 403. */
  function DisallowPorts(id: string, ports: Value, remote: Remote,
                         cache: Cache, now: string, writeOk: bool): (h: Handled)
    ensures !Truthy(ports) ==> h == Handled(Refusal(PORTS_EMPTY), cache, false)
    ensures Truthy(ports) && !ValidPortList(ToStr(ports)) ==> h == Handled(Refusal(PORTS_FORMAT), cache, false)
    ensures h.called <==> Truthy(ports) && ValidPortList(ToStr(ports))
    ensures h.called ==>
      var rep := Operate(DisallowInboundPorts, remote.registered, remote.connected, ToStr(ports), remote.reply);
      && (MentionsSsh(rep.error) ==> h.response == Response(403, false, Absent, Some(SSH_REFUSED), rep.error))
      && (!MentionsSsh(rep.error) ==>
            h.response == Response(if rep.success then 200 else 400, rep.success, rep.data, None, rep.error))
      && (!rep.success ==> h.cache == cache)
      && (rep.success ==> h.cache == RefreshPorts(id, remote, cache, now, writeOk))
  {
    if !Truthy(ports) then Handled(Refusal(PORTS_EMPTY), cache, false)
    else
      var text := ToStr(ports);
      MatchesIffValid(text);
      if !Matches(text) then Handled(Refusal(PORTS_FORMAT), cache, false)
      else
        var rep := Operate(DisallowInboundPorts, remote.registered, remote.connected, text, remote.reply);
        var cache' := if rep.success then RefreshPorts(id, remote, cache, now, writeOk) else cache;
        if MentionsSsh(rep.error) then Handled(Response(403, false, Absent, Some(SSH_REFUSED), rep.error), cache', true)
        else Handled(Response(StatusOf(rep.success), rep.success, rep.data, None, rep.error), cache', true)
  }

  /** Whether the cache file can be written never changes the answer. */
  lemma DisallowAnswerIgnoresCache(id: string, ports: Value, remote: Remote, cache: Cache, now: string)
    ensures DisallowPorts(id, ports, remote, cache, now, true).response
         == DisallowPorts(id, ports, remote, cache, now, false).response
  {
  }

  /** After a successful disallow whose follow-up listing succeeds, a cache
      file of its own holds that listing under "inboundPorts", whatever the
      SSH check then answers; the rule model's array-shaped file holds
      nothing for the server. */
  lemma DisallowRefreshesPorts(id: string, ports: Value, remote: Remote, cache: Cache, now: string)
    requires Truthy(ports) && ValidPortList(ToStr(ports))
    requires Operate(DisallowInboundPorts, remote.registered, remote.connected, ToStr(ports), remote.reply).success
    ensures var listing := Operate(GetInboundPorts, remote.registered, remote.connected, "", remote.reply);
      var after := DisallowPorts(id, ports, remote, cache, now, true).cache;
      && (listing.success && OwnFile(cache) ==>
            && GetServer(after, id).Some?
            && "inboundPorts" in GetServer(after, id).value.data
            && GetServer(after, id).value.data["inboundPorts"] == Returned(listing.data))
      && (!OwnFile(cache) ==> GetServer(after, id).None?)
  {
    var listing := Operate(GetInboundPorts, remote.registered, remote.connected, "", remote.reply);
    if listing.success {
      UpdateThenGet(cache, id, "inboundPorts", Returned(listing.data), now);
    }
  }

  /** Lists the format check turns away, however the remote would answer. */
  lemma MalformedListsRefused(id: string, remote: Remote, cache: Cache, now: string, writeOk: bool)
    ensures DisallowPorts(id, Str("80,"), remote, cache, now, writeOk).response == Refusal(PORTS_FORMAT)
    ensures DisallowPorts(id, Str("80-"), remote, cache, now, writeOk).response == Refusal(PORTS_FORMAT)
    ensures DisallowPorts(id, Str("a"), remote, cache, now, writeOk).response == Refusal(PORTS_FORMAT)
  {
    FormatRefused(id, "80,", remote, cache, now, writeOk);
    FormatRefused(id, "80-", remote, cache, now, writeOk);
    FormatRefused(id, "a", remote, cache, now, writeOk);
  }

  /** A non-empty text the automaton rejects is refused for its format. */
  lemma FormatRefused(id: string, list: string, remote: Remote, cache: Cache, now: string, writeOk: bool)
    requires list != "" && !Matches(list)
    ensures DisallowPorts(id, Str(list), remote, cache, now, writeOk).response == Refusal(PORTS_FORMAT)
  {
    MatchesIffValid(list);
  }

  // ---------------------------------------------------------------------------
  // the handlers whose service methods do not exist

  /** `setupDdosProtection`: the service has no such method, so the call
      throws into the `catch`, which answers 500 with the `TypeError`. */
  function SetupDdosProtection(cache: Cache): (h: Handled)
    ensures h.response.status == 500 && !h.response.success && h.cache == cache
    ensures h.response.message == Some("配置DDoS防御规则失败")
    ensures h.response.error == Some("nftablesService.setupDdosProtection is not a function")
  {
    assert "nftablesService." + "setupDdosProtection" + " is not a function"
        == "nftablesService.setupDdosProtection is not a function";
    Handled(MissingMethod("配置DDoS防御规则失败", "setupDdosProtection"), cache, true)
  }

  /** `viewDefenseStatus`: the call throws before the write-through under
      "defenseStatus" can run. */
  function ViewDefenseStatus(cache: Cache): (h: Handled)
    ensures h.response.status == 500 && !h.response.success && h.cache == cache
    ensures h.response.message == Some("查看防御状态失败")
  {
    Handled(MissingMethod("查看防御状态失败", "viewDefenseStatus"), cache, true)
  }

  /** The arguments `setupCustomPortProtection` passes on after the port. */
  datatype Protection = Protection(protoType: Value, maxConn: Value, maxRateMin: Value, maxRateSec: Value, banHours: Value)

  /** Each argument `|| default`: 1, 400, 400, 300 and 24. */
  function ProtectionDefaults(protoType: Value, maxConn: Value, maxRateMin: Value, maxRateSec: Value, banHours: Value): (p: Protection)
    ensures Truthy(p.protoType) && Truthy(p.maxConn) && Truthy(p.maxRateMin) && Truthy(p.maxRateSec) && Truthy(p.banHours)
    ensures Truthy(protoType) ==> p.protoType == protoType
    ensures Truthy(maxConn) ==> p.maxConn == maxConn
    ensures Truthy(maxRateMin) ==> p.maxRateMin == maxRateMin
    ensures Truthy(maxRateSec) ==> p.maxRateSec == maxRateSec
    ensures Truthy(banHours) ==> p.banHours == banHours
    ensures !Truthy(protoType) ==> p.protoType == Num(1)
    ensures !Truthy(maxConn) ==> p.maxConn == Num(400)
    ensures !Truthy(maxRateMin) ==> p.maxRateMin == Num(400)
    ensures !Truthy(maxRateSec) ==> p.maxRateSec == Num(300)
    ensures !Truthy(banHours) ==> p.banHours == Num(24)
  {
    Protection(Or(protoType, Num(1)), Or(maxConn, Num(400)), Or(maxRateMin, Num(400)),
               Or(maxRateSec, Num(300)), Or(banHours, Num(24)))
  }

  /** Because the defaults use `||`, an explicit 0 or empty string is
      replaced as if it were missing, and applying the defaults twice is
      applying them once. */
  lemma DefaultsReplaceFalsy(p: Protection)
    ensures ProtectionDefaults(Num(0), Str(""), Num(0), Null, Undefined)
         == Protection(Num(1), Num(400), Num(400), Num(300), Num(24))
    ensures var once := ProtectionDefaults(p.protoType, p.maxConn, p.maxRateMin, p.maxRateSec, p.banHours);
      ProtectionDefaults(once.protoType, once.maxConn, once.maxRateMin, once.maxRateSec, once.banHours) == once
  {
  }

  /** `setupCustomPortProtection`: 400 without a port; otherwise the missing
      service method makes it 500. */
  function SetupCustomPortProtection(port: Value, cache: Cache): (h: Handled)
    ensures !Truthy(port) ==> h == Handled(Refusal("端口不能为空"), cache, false)
    ensures Truthy(port) ==> h.response.status == 500 && h.called
    ensures h.cache == cache
  {
    if !Truthy(port) then Handled(Refusal("端口不能为空"), cache, false)
    else Handled(MissingMethod("配置自定义端口DDoS防御失败", "setupCustomPortProtection"), cache, true)
  }

  /** `manageIpLists`: 400 unless both `actionType` and `ip` are given;
      otherwise 500. */
  function ManageIpLists(actionType: Value, ip: Value, cache: Cache): (h: Handled)
    ensures !Truthy(actionType) || !Truthy(ip) ==> h == Handled(Refusal("操作类型和IP地址不能为空"), cache, false)
    ensures Truthy(actionType) && Truthy(ip) ==> h.response.status == 500 && h.called
    ensures h.cache == cache
  {
    if !Truthy(actionType) || !Truthy(ip) then Handled(Refusal("操作类型和IP地址不能为空"), cache, false)
    else Handled(MissingMethod("管理IP黑白名单失败", "manageIpLists"), cache, true)
  }

  // ---------------------------------------------------------------------------
  // cache endpoints

  /** `getServerRulesCache`: 404 without an entry, else 200 with it. */
  function GetCache(cache: Cache, id: string): (r: (nat, Option<Entry<Cached>>))
    ensures r.0 == 404 <==> GetServer(cache, id).None?
    ensures r.0 == 200 <==> GetServer(cache, id).Some?
    ensures r.0 == 200 ==> r.1 == GetServer(cache, id)
  {
    match GetServer(cache, id)
    case None => (404, None)
    case Some(e) => (200, Some(e))
  }

  /** `getCacheLastUpdate`: 404 when there is no time stamp or it is empty
      (the test is `!lastUpdate`). */
  function GetLastUpdate(cache: Cache, id: string): (r: (nat, Option<string>))
    ensures r.0 == 200 <==> LastUpdate(cache, id).Some? && LastUpdate(cache, id).value != ""
    ensures r.0 != 200 ==> r == (404, None)
    ensures r.0 == 200 ==> r.1 == LastUpdate(cache, id)
  {
    match LastUpdate(cache, id)
    case Some(t) => if t != "" then (200, Some(t)) else (404, None)
    case None => (404, None)
  }

  /** `clearServerCache`: always 200, carrying the outcome of the clear. */
  function ClearCache(cache: Cache, id: string, writeOk: bool): (h: Handled)
    ensures h.response.status == 200
    ensures h.response.success == (GetServer(cache, id).None? || writeOk)
    ensures h.response.success ==> GetServer(h.cache, id).None?
    ensures !h.response.success ==> h.cache == cache
  {
    var o := Clear(cache, id, writeOk);
    Handled(Response(200, o.ok, Absent, Some(if o.ok then "缓存清除成功" else "缓存清除失败"), None), o.file, false)
  }

  /** `updateCacheItem`: 400 without a key (an empty route segment), else 200
      carrying the outcome of the update. */
  function UpdateCache(cache: Cache, id: string, key: string, value: Value, now: string, writeOk: bool): (h: Handled)
    ensures key == "" ==> h == Handled(Refusal("缓存键名不能为空"), cache, false)
    ensures key != "" ==> h.response.status == 200 && h.response.success == (writeOk && !cache.NoRules?)
    ensures key != "" && !h.response.success ==> h.cache == cache
    ensures key != "" && cache.ArrayRules? ==> h.cache == cache && GetServer(h.cache, id).None?
    ensures key != "" && writeOk && OwnFile(cache) ==>
      && GetServer(h.cache, id).Some?
      && key in GetServer(h.cache, id).value.data
      && GetServer(h.cache, id).value.data[key] == Stored(value)
  {
    if key == "" then Handled(Refusal("缓存键名不能为空"), cache, false)
    else
      var o := UpdateItem(cache, id, key, Stored(value), now, writeOk);
      var message := if o.ok then "缓存项 " + key + " 更新成功" else "缓存项 " + key + " 更新失败";
      Handled(Response(200, o.ok, Absent, Some(message), None), o.file, false)
  }
}
