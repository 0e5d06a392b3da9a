/** The protocol adapter of server/services/nftablesService.js: the catalogue
    of operations and the numeric action each one passes to the remote
    `Nftato.sh`, the prerequisite check, the script-path probe, the quoted
    command line used for operations with parameters, and the empty-list
    phrases of the two listing operations. Remote results come from the
    `reply` oracle of the script runner; `registered` says whether
    `connections[serverId]` is set and `connected` is what `checkConnection`
    answers. */
module Nftables {
  import opened Maybe
  import opened Text
  import opened Executor
  import opened ScriptRunner
  import opened PortReport

  /** The service's public operations, in the order of the source. */
  datatype Operation =
    | GetBlockList | BlockBtPt | BlockSpam | BlockAll
    | BlockCustomPorts | BlockCustomKeyword
    | UnblockBtPt | UnblockSpam | UnblockAll
    | UnblockCustomPorts | UnblockCustomKeyword | UnblockAllKeywords
    | GetInboundPorts | GetInboundIPs
    | AllowInboundPorts | DisallowInboundPorts | AllowInboundIPs | DisallowInboundIPs
    | GetSshPort | ClearAllRules

  /** The menu number of the remote script each operation runs. */
  function ActionCode(op: Operation): nat {
    match op
    case GetBlockList => 0
    case BlockBtPt => 1
    case BlockSpam => 2
    case BlockAll => 3
    case BlockCustomPorts => 4
    case BlockCustomKeyword => 5
    case UnblockBtPt => 6
    case UnblockSpam => 7
    case UnblockAll => 8
    case UnblockCustomPorts => 9
    case UnblockCustomKeyword => 10
    case UnblockAllKeywords => 11
    case GetInboundPorts => 13
    case GetInboundIPs => 14
    case AllowInboundPorts => 15
    case DisallowInboundPorts => 16
    case AllowInboundIPs => 17
    case DisallowInboundIPs => 18
    case GetSshPort => 19
    case ClearAllRules => 20
  }

  /** The operation a menu number belongs to, if any. */
  function OperationOf(code: nat): (op: Option<Operation>)
    ensures op.Some? ==> ActionCode(op.value) == code
  {
    match code
    case 0 => Some(GetBlockList)
    case 1 => Some(BlockBtPt)
    case 2 => Some(BlockSpam)
    case 3 => Some(BlockAll)
    case 4 => Some(BlockCustomPorts)
    case 5 => Some(BlockCustomKeyword)
    case 6 => Some(UnblockBtPt)
    case 7 => Some(UnblockSpam)
    case 8 => Some(UnblockAll)
    case 9 => Some(UnblockCustomPorts)
    case 10 => Some(UnblockCustomKeyword)
    case 11 => Some(UnblockAllKeywords)
    case 13 => Some(GetInboundPorts)
    case 14 => Some(GetInboundIPs)
    case 15 => Some(AllowInboundPorts)
    case 16 => Some(DisallowInboundPorts)
    case 17 => Some(AllowInboundIPs)
    case 18 => Some(DisallowInboundIPs)
    case 19 => Some(GetSshPort)
    case 20 => Some(ClearAllRules)
    case _ => None
  }

  /** Every operation is found again from its menu number, so no two
      operations share a number; 12 and everything above 20 are unused. */
  lemma CatalogueIsInjective(op: Operation, other: Operation)
    ensures OperationOf(ActionCode(op)) == Some(op)
    ensures ActionCode(op) == ActionCode(other) ==> op == other
    ensures ActionCode(op) != 12 && ActionCode(op) <= 20
  {
  }

  /** The operations that take a parameter string and go through
      `_executeIptatoCommand`. */
  predicate TakesParams(op: Operation) {
    op in {BlockCustomPorts, BlockCustomKeyword, UnblockCustomPorts, UnblockCustomKeyword,
           AllowInboundPorts, DisallowInboundPorts, AllowInboundIPs, DisallowInboundIPs}
  }

  lemma ParameterCodes(op: Operation)
    ensures TakesParams(op) <==> ActionCode(op) in {4, 5, 9, 10, 15, 16, 17, 18}
  {
  }

  // ---------------------------------------------------------------------------
  // prerequisites and the script path

  datatype Prereq = Ready | Refused(error: string)

  /** `_checkPrerequisites`: a registered connection and a script found by
      the location probe. */
  function Prerequisites(registered: bool, reply: string -> ExecResult): (p: Prereq)
    ensures p.Ready? <==> registered && reply(LOCATE).Resolved? && !Contains(reply(LOCATE).stdout, "not found")
    ensures !registered ==> p == Refused("服务器未连接，请先连接服务器")
  {
    if !registered then Refused("服务器未连接，请先连接服务器")
    else match reply(LOCATE)
      case Rejected(_, m) => Refused("检查前置条件失败: " + m)
      case Resolved(_, out, _) =>
        if Contains(out, "not found") then Refused("Nftato脚本未部署，请先部署脚本") else Ready
  }

  /** The probe of `_getScriptPath`, which answers "root", "home" or "not found". */
  const PATH_PROBE: string := "test -f /root/Nftato.sh && echo \"root\" || (test -f ~/Nftato.sh && echo \"home\" || echo \"not found\")"

  /** `_getScriptPath`. On "not found" it calls `sshService.deployIptato`,
      which the session service does not define; the resulting error is
      caught and, like every other error, yields the /root path. */
  function ScriptPath(probe: ExecResult): (path: string)
    ensures path == HOME_PATH <==>
      probe.Resolved? && !Contains(probe.stdout, "not found") && !Contains(probe.stdout, "root")
    ensures path == ROOT_PATH || path == HOME_PATH
  {
    match probe
    case Rejected(_, _) => ROOT_PATH
    case Resolved(_, out, _) =>
      if Contains(out, "not found") then ROOT_PATH
      else if Contains(out, "root") then ROOT_PATH
      else HOME_PATH
  }

  /** `bash ${scriptPath} ${action} "${params}"`. */
  function QuotedCommand(path: string, action: nat, params: string): string {
    "bash " + path + " " + NatToString(action) + " \"" + params + "\""
  }

  /** The parameters travel as one double-quoted word: cutting the command at
      its quotes gives the prefix, the parameters and nothing after, as long
      as the parameters hold no quote of their own. */
  lemma QuotedCommandParts(path: string, action: nat, params: string)
    requires path == ROOT_PATH || path == HOME_PATH
    requires Free(params, '"')
    ensures Split(QuotedCommand(path, action, params), '"') == ["bash " + path + " " + NatToString(action) + " ", params, ""]
  {
    var a := NatToString(action);
    var head := "bash " + path + " " + a + " ";
    assert Free(head, '"') by {
      forall i | 0 <= i < |head|
        ensures head[i] != '"'
      {
        if 5 + |path| + 1 <= i < 5 + |path| + 1 + |a| {
          assert head[i] == a[i - 5 - |path| - 1];
          assert IsDigit(a[i - 5 - |path| - 1]);
        }
      }
    }
    assert QuotedCommand(path, action, params) == head + ['"'] + (params + ['"'] + "");
    SplitJoin([head, params, ""], '"');
    assert [head, params, ""][1..] == [params, ""];
    assert [params, ""][1..] == [""];
    assert Join([params, ""], '"') == params + ['"'] + Join([""], '"');
    assert Join([head, params, ""], '"') == head + ['"'] + Join([params, ""], '"');
  }

  // ---------------------------------------------------------------------------
  // running commands

  /** What `_executeIptatoCommand` returns: the prerequisite object itself, or
      a script result. */
  datatype CommandResult = PrereqFailed(error: string) | Ran(result: ScriptResult)

  datatype Call = Call(issued: seq<string>, result: CommandResult)

  /** The prerequisite probe, when it is issued. */
  function PrereqIssued(registered: bool): seq<string> {
    if registered then [LOCATE] else []
  }

  /** `_executeIptatoCommand(serverId, action, params)`. Without parameters it
      runs `executeNftato` (see `AsWrittenParameterless` for what the source
      calls instead); with parameters it probes the path and runs the quoted
      command, succeeding exactly on exit code 0. */
  function ExecuteIptatoCommand(registered: bool, connected: bool, action: nat, params: string,
                                reply: string -> ExecResult): (c: Call)
    ensures Prerequisites(registered, reply).Refused? ==>
      c == Call(PrereqIssued(registered), PrereqFailed(Prerequisites(registered, reply).error))
    ensures params != "" && Prerequisites(registered, reply).Ready? ==>
      var cmd := QuotedCommand(ScriptPath(reply(PATH_PROBE)), action, params);
      && c.issued == [LOCATE, PATH_PROBE, cmd]
      && c.result.Ran?
      && (c.result.result.success <==> Ok(reply(cmd)))
      && (reply(cmd).Resolved? ==> c.result.result.output == reply(cmd).stdout && c.result.result.code == reply(cmd).code)
    ensures params == "" && Prerequisites(registered, reply).Ready? ==>
      c == Call([LOCATE] + ExecuteNftato(connected, action, "", reply).issued,
                Ran(ExecuteNftato(connected, action, "", reply).result))
  {
    var pre := Prerequisites(registered, reply);
    if pre.Refused? then Call(PrereqIssued(registered), PrereqFailed(pre.error))
    else if params == "" then
      var p := ExecuteNftato(connected, action, "", reply);
      Call([LOCATE] + p.issued, Ran(p.result))
    else
      var cmd := QuotedCommand(ScriptPath(reply(PATH_PROBE)), action, params);
      match reply(cmd)
      case Rejected(_, m) => Call([LOCATE, PATH_PROBE, cmd], Ran(Failed("执行命令失败: " + m)))
      case Resolved(code, out, err) => Call([LOCATE, PATH_PROBE, cmd], Ran(ScriptResult(code == Some(0), out, err, code)))
  }

  // ---------------------------------------------------------------------------
  // the public operations

  /** The `data` field of a service reply. `Absent` is a missing key (the
      prerequisite object is passed on as it is). */
  datatype Data = Absent | NullData | Text(text: string) | Ports(ports: PortLists) | Ips(ips: seq<string>)

  datatype Reply = Reply(success: bool, data: Data, error: Option<string>)

  /** The phrases the script prints when nothing is allowed. */
  predicate NoPortsPhrase(output: string) {
    Contains(output, "当前未放行任何端口") || Contains(output, "No allowed ports")
  }

  predicate NoIpsPhrase(output: string) {
    Contains(output, "当前未放行任何 IP") || Contains(output, "No allowed IPs")
  }

  /** The reply of `getInboundPorts` built from the script result. */
  function InboundPortsReply(r: ScriptResult): (rep: Reply)
    ensures rep.success == r.success && rep.data.Ports?
    ensures r.success && NoPortsPhrase(r.output) ==> rep.data.ports == PortLists([], [])
    ensures r.success && !NoPortsPhrase(r.output) ==> rep.data.ports == ParsePortOutput(r.output)
    ensures !r.success ==> rep == Reply(false, Ports(PortLists([], [])), Some(r.error))
  {
    if r.success then
      if NoPortsPhrase(r.output) then Reply(true, Ports(PortLists([], [])), None)
      else Reply(true, Ports(ParsePortOutput(r.output)), None)
    else Reply(false, Ports(PortLists([], [])), Some(r.error))
  }

  /** The reply of `getInboundIPs` built from the script result. */
  function InboundIpsReply(r: ScriptResult): (rep: Reply)
    ensures rep.success == r.success && rep.data.Ips?
    ensures r.success && NoIpsPhrase(r.output) ==> rep.data.ips == []
    ensures r.success && !NoIpsPhrase(r.output) ==> rep.data.ips == ParseIPOutput(r.output)
    ensures !r.success ==> rep == Reply(false, Ips([]), Some(r.error))
  {
    if r.success then
      if NoIpsPhrase(r.output) then Reply(true, Ips([]), None)
      else Reply(true, Ips(ParseIPOutput(r.output)), None)
    else Reply(false, Ips([]), Some(r.error))
  }

  /** The public method for `op`; `params` is the ports, keyword or IP list
      of the operations that take one and is ignored by the others. */
  function Operate(op: Operation, registered: bool, connected: bool, params: string,
                   reply: string -> ExecResult): (rep: Reply)
    ensures Prerequisites(registered, reply).Refused? ==>
      rep == Reply(false, Absent, Some(Prerequisites(registered, reply).error))
    ensures !TakesParams(op) && Prerequisites(registered, reply).Ready? ==>
      var r := ExecuteNftato(connected, ActionCode(op), "", reply).result;
      && rep.success == r.success
      && (op != GetInboundPorts && op != GetInboundIPs ==> rep == Reply(r.success, Text(r.output), Some(r.error)))
    ensures TakesParams(op) && Prerequisites(registered, reply).Ready? ==>
      var c := ExecuteIptatoCommand(registered, connected, ActionCode(op), params, reply).result;
      && c.Ran?
      && rep == Reply(c.result.success, Text(c.result.output), Some(c.result.error))
  {
    if TakesParams(op) then
      match ExecuteIptatoCommand(registered, connected, ActionCode(op), params, reply).result
      case PrereqFailed(e) => Reply(false, Absent, Some(e))
      case Ran(r) => Reply(r.success, Text(r.output), Some(r.error))
    else
      var pre := Prerequisites(registered, reply);
      if pre.Refused? then Reply(false, Absent, Some(pre.error))
      else
        var r := ExecuteNftato(connected, ActionCode(op), "", reply).result;
        if op == GetInboundPorts then InboundPortsReply(r)
        else if op == GetInboundIPs then InboundIpsReply(r)
        else Reply(r.success, Text(r.output), Some(r.error))
  }

  /** An operation with parameters answers with what the quoted script run
      printed: success exactly on exit code 0, the standard output as data
      and the standard error as the error; a rejected run reports
      "执行命令失败: " and its message, with empty data. */
  lemma ParameterisedReply(op: Operation, registered: bool, connected: bool, params: string,
                           reply: string -> ExecResult)
    requires TakesParams(op) && params != "" && Prerequisites(registered, reply).Ready?
    ensures var cmd := QuotedCommand(ScriptPath(reply(PATH_PROBE)), ActionCode(op), params);
      var rep := Operate(op, registered, connected, params, reply);
      && (rep.success <==> reply(cmd).Resolved? && reply(cmd).code == Some(0))
      && (reply(cmd).Resolved? ==>
            rep == Reply(reply(cmd).code == Some(0), Text(reply(cmd).stdout), Some(reply(cmd).stderr)))
      && (reply(cmd).Rejected? ==> rep == Reply(false, Text(""), Some("执行命令失败: " + reply(cmd).message)))
  {
  }

  /** The prerequisite check and the path lookup ask different questions, so
      a script found by the first can still be reported missing by the
      second, which then falls back to the /root path. */
  lemma PathProbeIsSeparate(registered: bool, reply: string -> ExecResult)
    requires registered && reply(LOCATE) == Resolved(Some(0), "exists in home", "")
    requires reply(PATH_PROBE) == Resolved(Some(0), "not found", "")
    ensures LOCATE != PATH_PROBE
    ensures Prerequisites(registered, reply).Ready? && ScriptPath(reply(PATH_PROBE)) == ROOT_PATH
  {
    assert |LOCATE| != |PATH_PROBE|;
    MissingCharNotContained("exists in home", "not found", 4);
    assert At("not found", 0, "not found");
  }

  /** A successful listing whose output carries the "nothing allowed" phrase
      yields empty lists without parsing; otherwise the parsed output. Both
      port lists are always present. */
  lemma InboundPortsShortCircuit(registered: bool, connected: bool, params: string, reply: string -> ExecResult)
    requires Prerequisites(registered, reply).Ready?
    ensures var r := ExecuteNftato(connected, 13, "", reply).result;
      var rep := Operate(GetInboundPorts, registered, connected, params, reply);
      && rep.data.Ports?
      && (r.success && NoPortsPhrase(r.output) ==> rep == Reply(true, Ports(PortLists([], [])), None))
      && (r.success && !NoPortsPhrase(r.output) ==> rep == Reply(true, Ports(ParsePortOutput(r.output)), None))
      && (!r.success ==> rep == Reply(false, Ports(PortLists([], [])), Some(r.error)))
  {
  }

  lemma InboundIpsShortCircuit(registered: bool, connected: bool, params: string, reply: string -> ExecResult)
    requires Prerequisites(registered, reply).Ready?
    ensures var r := ExecuteNftato(connected, 14, "", reply).result;
      var rep := Operate(GetInboundIPs, registered, connected, params, reply);
      && rep.data.Ips?
      && (r.success && NoIpsPhrase(r.output) ==> rep == Reply(true, Ips([]), None))
      && (r.success && !NoIpsPhrase(r.output) ==> rep == Reply(true, Ips(ParseIPOutput(r.output)), None))
      && (!r.success ==> rep == Reply(false, Ips([]), Some(r.error)))
  {
  }

  // ---------------------------------------------------------------------------
  // the parameterless operations as written

  /** The message of the `TypeError` raised by calling a method the session
      service does not have. */
  const NOT_A_FUNCTION: string := "sshService.executeIptato is not a function"

  /** The prefix each parameterless operation puts before a caught error. */
  function FailurePrefix(op: Operation): string {
    match op
    case GetBlockList => "获取封禁列表失败: "
    case BlockBtPt => "封禁BT/PT协议失败: "
    case BlockSpam => "封禁垃圾邮件端口失败: "
    case BlockAll => "封禁全部失败: "
    case UnblockBtPt => "解封BT/PT协议失败: "
    case UnblockSpam => "解封垃圾邮件端口失败: "
    case UnblockAll => "解封BT/PT和垃圾邮件失败: "
    case UnblockAllKeywords => "解封所有关键词失败: "
    case GetInboundPorts => "获取入网端口失败: "
    case GetInboundIPs => "获取入网IP失败: "
    case GetSshPort => "获取SSH端口失败: "
    case ClearAllRules => "清空所有规则失败: "
    case _ => ""
  }

  /** A parameterless operation as the source writes it: once the
      prerequisites pass it calls `sshService.executeIptato`, which does not
      exist, and its own `catch` turns the error into a failure. */
  function AsWrittenParameterless(op: Operation, registered: bool, reply: string -> ExecResult): (rep: Reply)
    requires !TakesParams(op)
  {
    var pre := Prerequisites(registered, reply);
    if pre.Refused? then Reply(false, Absent, Some(pre.error))
    else
      var data := if op == GetInboundPorts then Ports(PortLists([], []))
                  else if op == GetInboundIPs then Ips([])
                  else NullData;
      Reply(false, data, Some(FailurePrefix(op) + NOT_A_FUNCTION))
  }

  /** As written, no parameterless operation can ever succeed, whatever the
      server answers. */
  lemma AsWrittenNeverSucceeds(op: Operation, registered: bool, reply: string -> ExecResult)
    requires !TakesParams(op)
    ensures !AsWrittenParameterless(op, registered, reply).success
  {
  }

  /** A server on which the script is found in the root directory, is
      executable, and every other command exits 0 printing `out`. */
  function HealthyReply(out: string): string -> ExecResult {
    (cmd: string) =>
      if cmd == LOCATE then Resolved(Some(0), "exists in root", "")
      else if cmd == PermCheck(ROOT_PATH) then Resolved(Some(0), "executable", "")
      else Resolved(Some(0), out, "")
  }

  /** What the healthy server answers to the three commands of a listing. */
  lemma HealthyAnswers(out: string)
    ensures HealthyReply(out)(LOCATE) == Resolved(Some(0), "exists in root", "")
    ensures !Contains("exists in root", "not found") && ChosenPath("exists in root") == ROOT_PATH
    ensures HealthyReply(out)(PermCheck(ROOT_PATH)) == Resolved(Some(0), "executable", "")
    ensures !Contains("executable", "not executable")
    ensures HealthyReply(out)(RunCommand(ROOT_PATH, 13, "")) == Resolved(Some(0), out, "")
  {
    assert At("exists in root", 0, "exists in root");
    MissingCharNotContained("exists in root", "not found", 4);
    assert !Contains("executable", "not executable");
  }

  /** The same listing with the intended `executeNftato` call succeeds when
      the script is found, executable and exits 0, and the port report is
      parsed. */
  lemma CorrectedListingSucceeds(out: string)
    ensures Operate(GetInboundPorts, true, true, "", HealthyReply(out)).success
    ensures !AsWrittenParameterless(GetInboundPorts, true, HealthyReply(out)).success
  {
    HealthyAnswers(out);
    ReadyScriptSucceeds(13, "", HealthyReply(out));
    AsWrittenNeverSucceeds(GetInboundPorts, true, HealthyReply(out));
  }
}
