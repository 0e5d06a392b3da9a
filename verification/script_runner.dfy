/** The two script pipelines of server/services/sshService.js built on
    `executeCommand`: `executeNftato` (probe, path choice, permission fix, run)
    and `deployIptatoWithLogs` (the deployment state machine). The remote
    side is an oracle `reply` giving the settled result of `executeCommand`
    for each command line; the pipelines return the command lines they
    issued, in order, with their result. */
module ScriptRunner {
  import opened Maybe
  import opened Text
  import opened Executor

  const ROOT_PATH: string := "/root/Nftato.sh"
  const HOME_PATH: string := "~/Nftato.sh"

  /** The location probe shared with the adapter's prerequisite check. */
  const LOCATE: string := "test -f /root/Nftato.sh && echo \"exists in root\" || (test -f ~/Nftato.sh && echo \"exists in home\" || echo \"not found\")"

  function PermCheck(path: string): string {
    "test -x " + path + " && echo \"executable\" || echo \"not executable\""
  }

  function Chmod(path: string): string {
    "chmod +x " + path
  }

  /** `params ? `bash ${path} ${action} ${params}` : `bash ${path} ${action}``:
      the parameters are appended without quotes. */
  function RunCommand(path: string, action: nat, params: string): string {
    "bash " + path + " " + NatToString(action) + (if params != "" then " " + params else "")
  }

  /** The location the probe output selects: root unless the probe does not
      say "exists in root". */
  function ChosenPath(probe: string): (p: string)
    ensures p == ROOT_PATH <==> Contains(probe, "exists in root")
    ensures p == ROOT_PATH || p == HOME_PATH
  {
    if Contains(probe, "exists in root") then ROOT_PATH else HOME_PATH
  }

  datatype ScriptResult = ScriptResult(success: bool, output: string, error: string, code: Option<int>)

  function Failed(error: string): ScriptResult {
    ScriptResult(false, "", error, Some(-1))
  }

  datatype Pipeline = Pipeline(issued: seq<string>, result: ScriptResult)

  /** The result `executeNftato` builds from the script run. */
  function FromRun(code: Option<int>, stdout: string, stderr: string): (r: ScriptResult)
    ensures r.success <==> code == Some(0)
    ensures r.code == code && r.output == stdout
    ensures r.success ==> r.error == stderr
    ensures !r.success ==> r.error != ""
  {
    if code != Some(0) then ScriptResult(false, stdout, if stderr == "" then "脚本执行失败" else stderr, code)
    else ScriptResult(true, stdout, stderr, code)
  }

  function CheckFailed(message: string): ScriptResult {
    Failed("执行脚本检查命令失败: " + message)
  }

  /** `executeNftato(serverId, action, params)`; `connected` is the answer of
      `checkConnection`. */
  function ExecuteNftato(connected: bool, action: nat, params: string, reply: string -> ExecResult): (p: Pipeline)
    ensures !connected ==> p.issued == [] && p == Pipeline([], Failed("SSH连接无效，请重新连接服务器"))
    ensures connected ==> |p.issued| >= 1 && p.issued[0] == LOCATE
    ensures !p.result.success ==> p.result.code != Some(0)
    ensures p.result.success ==>
      && reply(LOCATE).Resolved?
      && !Contains(reply(LOCATE).stdout, "not found")
      && var path := ChosenPath(reply(LOCATE).stdout);
      && p.issued[|p.issued| - 1] == RunCommand(path, action, params)
      && reply(RunCommand(path, action, params)) == Resolved(Some(0), p.result.output, p.result.error)
    ensures connected && reply(LOCATE).Resolved? && Contains(reply(LOCATE).stdout, "not found") ==>
      p == Pipeline([LOCATE], Failed("Nftato脚本未找到，请先部署脚本"))
    ensures |p.issued| >= 2 ==> reply(LOCATE).Resolved? && p.issued[1] == PermCheck(ChosenPath(reply(LOCATE).stdout))
  {
    if !connected then Pipeline([], Failed("SSH连接无效，请重新连接服务器"))
    else
      var probe := reply(LOCATE);
      if probe.Rejected? then Pipeline([LOCATE], CheckFailed(probe.message))
      else if Contains(probe.stdout, "not found") then Pipeline([LOCATE], Failed("Nftato脚本未找到，请先部署脚本"))
      else
        var path := ChosenPath(probe.stdout);
        var perm := reply(PermCheck(path));
        if perm.Rejected? then Pipeline([LOCATE, PermCheck(path)], CheckFailed(perm.message))
        else
          var fix := if Contains(perm.stdout, "not executable") then [Chmod(path)] else [];
          var fixed := if fix == [] then perm else reply(Chmod(path));
          if fixed.Rejected? then Pipeline([LOCATE, PermCheck(path)] + fix, CheckFailed(fixed.message))
          else
            var command := RunCommand(path, action, params);
            var issued := [LOCATE, PermCheck(path)] + fix + [command];
            match reply(command)
            case Rejected(_, m) => Pipeline(issued, CheckFailed(m))
            case Resolved(code, out, err) => Pipeline(issued, FromRun(code, out, err))
  }

  /** The permission is repaired exactly when the check says "not executable",
      and then right after the check. */
  lemma ChmodOnlyWhenNotExecutable(action: nat, params: string, reply: string -> ExecResult)
    requires reply(LOCATE).Resolved? && !Contains(reply(LOCATE).stdout, "not found")
    ensures var path := ChosenPath(reply(LOCATE).stdout);
      var p := ExecuteNftato(true, action, params, reply);
      (|p.issued| >= 3 && p.issued[2] == Chmod(path))
        <==> reply(PermCheck(path)).Resolved? && Contains(reply(PermCheck(path)).stdout, "not executable")
  {
    var path := ChosenPath(reply(LOCATE).stdout);
    assert Chmod(path) != RunCommand(path, action, params) by {
      assert Chmod(path)[0] == 'c';
      assert RunCommand(path, action, params)[0] == 'b';
    }
  }

  /** The converse of the success clause of `ExecuteNftato`: a found script
      that passes the permission check and exits 0 makes the pipeline
      succeed. */
  lemma ReadyScriptSucceeds(action: nat, params: string, reply: string -> ExecResult)
    requires reply(LOCATE).Resolved? && !Contains(reply(LOCATE).stdout, "not found")
    requires var path := ChosenPath(reply(LOCATE).stdout);
      && reply(PermCheck(path)).Resolved? && !Contains(reply(PermCheck(path)).stdout, "not executable")
      && reply(RunCommand(path, action, params)).Resolved?
      && reply(RunCommand(path, action, params)).code == Some(0)
    ensures ExecuteNftato(true, action, params, reply).result.success
  {
  }

  /** A path without blanks: the two script locations. */
  lemma PathsHaveNoBlank()
    ensures Free(ROOT_PATH, ' ') && Free(HOME_PATH, ' ')
  {
  }

  /** The command line is unquoted: the remote shell sees `bash`, the path,
      the action code and then every blank-separated word of the parameters
      as an argument of its own. */
  lemma RunCommandWords(path: string, action: nat, params: string)
    requires path == ROOT_PATH || path == HOME_PATH
    requires params != ""
    ensures Split(RunCommand(path, action, params), ' ') == ["bash", path, NatToString(action)] + Split(params, ' ')
  {
    var a := NatToString(action);
    DigitsHaveNoBlank(a);
    assert Free("bash", ' ');
    CommandLayout(path, action, params);
    ThreeWords("bash", path, a, params, ' ');
  }

  lemma DigitsHaveNoBlank(a: string)
    requires AllDigits(a)
    ensures Free(a, ' ')
  {
    forall i | 0 <= i < |a|
      ensures a[i] != ' '
    {
      assert IsDigit(a[i]);
    }
  }

  lemma CommandLayout(path: string, action: nat, params: string)
    requires params != ""
    ensures RunCommand(path, action, params)
      == "bash" + [' '] + (path + [' '] + (NatToString(action) + [' '] + params))
  {
  }

  /** Three words without the separator, then the rest. */
  lemma ThreeWords(w1: string, w2: string, w3: string, rest: string, c: char)
    requires Free(w1, c) && Free(w2, c) && Free(w3, c)
    ensures Split(w1 + [c] + (w2 + [c] + (w3 + [c] + rest)), c) == [w1, w2, w3] + Split(rest, c)
  {
    SplitAfterPiece(w3, rest, c);
    SplitAfterPiece(w2, w3 + [c] + rest, c);
    SplitAfterPiece(w1, w2 + [c] + (w3 + [c] + rest), c);
  }

  // ---------------------------------------------------------------------------
  // deployment

  const EXISTS_CHECK: string := "test -f /root/Nftato.sh && echo \"exists\" || echo \"not_found\""
  const EXEC_CHECK: string := "test -x /root/Nftato.sh && echo \"executable\" || echo \"not_executable\""
  const ROOT_CHMOD: string := "chmod +x /root/Nftato.sh"
  const PREPARE: seq<string> := [
    "cd ~",
    "wget -N --no-check-certificate https://gh-proxy.com/raw.githubusercontent.com/Fiftonb/Gnftato/refs/heads/main/Nftato.sh",
    "chmod +x Nftato.sh"
  ]
  const SCRIPT_RUN: string := "export AUTOMATED=yes; ./Nftato.sh 20 || echo \"Script execution failed\""
  const VERIFY: string := "test -f ~/Nftato.sh && echo \"success\" || echo \"failed\""
  const COPY_TO_ROOT: string := "sudo cp ~/Nftato.sh /root/Nftato.sh 2>/dev/null || echo \"无法复制到root目录\""

  /** What deployment meets besides the command replies: the stored status of
      the server (`None` when it is not found), whether `connect` succeeds,
      and how the streamed run of the script goes. */
  datatype DeployEnv = DeployEnv(server: Option<string>, connectOk: bool, connectError: string,
                                 reply: string -> ExecResult, stream: StreamEnv)

  datatype DeployResult = DeployResult(success: bool, message: string)

  /** `issued` are the `executeCommand` lines, `streamed` whether the script
      was run through the streaming call, `cleared` whether a clear of the
      server's rule cache was requested (its answer is ignored). */
  datatype Deployment = Deployment(issued: seq<string>, streamed: bool, cleared: bool, result: DeployResult)

  function Fail(issued: seq<string>, streamed: bool, message: string): Deployment {
    Deployment(issued, streamed, false, DeployResult(false, message))
  }

  /** The command exited 0. */
  predicate Ok(r: ExecResult) {
    r.Resolved? && r.code == Some(0)
  }

  datatype Prepared = Prepared(issued: seq<string>, error: Option<string>)

  /** The prepare commands from index `i` on, in order, stopping at the first
      one that is rejected or exits non-zero. */
  function Prepare(reply: string -> ExecResult, i: nat): (r: Prepared)
    requires i <= |PREPARE|
    ensures i + |r.issued| <= |PREPARE| && r.issued == PREPARE[i..i + |r.issued|]
    ensures forall j :: i <= j < i + |r.issued| - 1 ==> Ok(reply(PREPARE[j]))
    ensures r.error.None? <==> forall j :: i <= j < |PREPARE| ==> Ok(reply(PREPARE[j]))
    ensures r.error.None? ==> r.issued == PREPARE[i..]
    ensures r.error.Some? ==> |r.issued| > 0 && !Ok(reply(r.issued[|r.issued| - 1]))
    decreases |PREPARE| - i
  {
    if i == |PREPARE| then Prepared([], None)
    else
      var cmd := PREPARE[i];
      match reply(cmd)
      case Rejected(_, m) => Prepared([cmd], Some(m))
      case Resolved(code, _, _) =>
        if code != Some(0) then Prepared([cmd], Some("部署命令失败: " + cmd))
        else
          var rest := Prepare(reply, i + 1);
          Prepared([cmd] + rest.issued, rest.error)
  }

  /** The tail of a fresh install once the script has run: verification,
      the copy to /root, and the request to clear the server's rule cache. */
  function Finish(reply: string -> ExecResult, issued: seq<string>): (d: Deployment)
    ensures d.streamed
    ensures d.issued == issued + [VERIFY] || d.issued == issued + [VERIFY, COPY_TO_ROOT]
    ensures d.cleared <==> d.result.success
    ensures d.result.success <==>
      reply(VERIFY).Resolved? && Trim(reply(VERIFY).stdout) == "success" && reply(COPY_TO_ROOT).Resolved?
  {
    match reply(VERIFY)
    case Rejected(_, m) => Fail(issued + [VERIFY], true, m)
    case Resolved(_, out, _) =>
      if Trim(out) != "success" then Fail(issued + [VERIFY], true, "脚本部署验证失败")
      else match reply(COPY_TO_ROOT)
        case Rejected(_, m) => Fail(issued + [VERIFY, COPY_TO_ROOT], true, m)
        case Resolved(_, _, _) => Deployment(issued + [VERIFY, COPY_TO_ROOT], true, true, DeployResult(true, "脚本部署成功"))
  }

  /** The script is already at /root: fix its permission if needed and
      report success, with no download, no script run and no cache change. */
  function UseExisting(reply: string -> ExecResult): (d: Deployment)
    ensures !d.streamed && !d.cleared
    ensures d.issued == [EXISTS_CHECK, EXEC_CHECK] || d.issued == [EXISTS_CHECK, EXEC_CHECK, ROOT_CHMOD]
    ensures d.issued == [EXISTS_CHECK, EXEC_CHECK, ROOT_CHMOD] <==>
      reply(EXEC_CHECK).Resolved? && Trim(reply(EXEC_CHECK).stdout) != "executable"
    ensures d.result.success <==>
      reply(EXEC_CHECK).Resolved? && (Trim(reply(EXEC_CHECK).stdout) == "executable" || reply(ROOT_CHMOD).Resolved?)
  {
    match reply(EXEC_CHECK)
    case Rejected(_, m) => Fail([EXISTS_CHECK, EXEC_CHECK], false, m)
    case Resolved(_, x, _) =>
      if Trim(x) == "executable" then
        Deployment([EXISTS_CHECK, EXEC_CHECK], false, false, DeployResult(true, "脚本已存在且可执行"))
      else match reply(ROOT_CHMOD)
        case Rejected(_, m) => Fail([EXISTS_CHECK, EXEC_CHECK, ROOT_CHMOD], false, m)
        case Resolved(_, _, _) =>
          Deployment([EXISTS_CHECK, EXEC_CHECK, ROOT_CHMOD], false, false, DeployResult(true, "脚本已存在且可执行"))
  }

  /** A fresh install: the prepare commands, the streamed run of action 20,
      then `Finish`. */
  function Install(reply: string -> ExecResult, stream: StreamEnv): (d: Deployment)
    ensures 1 <= |d.issued| <= 6 && d.issued[0] == EXISTS_CHECK
    ensures d.streamed <==> forall j :: 0 <= j < |PREPARE| ==> Ok(reply(PREPARE[j]))
    ensures d.streamed ==> |d.issued| >= 4 && d.issued[..4] == [EXISTS_CHECK] + PREPARE
    ensures !d.streamed ==> |d.issued| <= 4 && d.issued[1..] == PREPARE[..|d.issued| - 1] && !d.result.success
    ensures d.cleared <==> d.result.success
    ensures d.result.success <==>
      && d.streamed
      && ExecuteStream(stream).result.StreamResolved? && ExecuteStream(stream).result.code == Some(0)
      && reply(VERIFY).Resolved? && Trim(reply(VERIFY).stdout) == "success" && reply(COPY_TO_ROOT).Resolved?
  {
    var prep := Prepare(reply, 0);
    var issued := [EXISTS_CHECK] + prep.issued;
    if prep.error.Some? then Fail(issued, false, prep.error.value)
    else
      var run := ExecuteStream(stream);
      match run.result
      case StreamRejected(m) => Fail(issued, true, "脚本执行异常: " + m)
      case StreamResolved(code, _, _) =>
        if code != Some(0) then Fail(issued, true, "脚本执行失败，退出码: " + CodeText(code))
        else Finish(reply, issued)
  }

  /** `deployIptatoWithLogs(serverId)`. */
  function Deploy(env: DeployEnv): (d: Deployment)
    ensures env.server != Some("online") || !env.connectOk ==> d.issued == [] && !d.streamed && !d.result.success
    ensures d.cleared ==> d.result.success && d.streamed
    ensures |d.issued| > 0 ==> d.issued[0] == EXISTS_CHECK
  {
    if env.server.None? then Fail([], false, "找不到服务器信息")
    else if env.server.value != "online" then Fail([], false, "服务器当前离线，无法部署脚本")
    else if !env.connectOk then Fail([], false, env.connectError)
    else
      match env.reply(EXISTS_CHECK)
      case Rejected(_, m) => Fail([EXISTS_CHECK], false, m)
      case Resolved(_, found, _) =>
        if Trim(found) == "exists" then UseExisting(env.reply) else Install(env.reply, env.stream)
  }

  /** When the script is already at /root, deployment only checks and fixes
      its permission: it downloads nothing, never runs the script and leaves the rule cache alone; it succeeds unless a
      check or the permission fix is rejected. */
  lemma ExistingScriptShortCircuits(env: DeployEnv)
    requires env.server == Some("online") && env.connectOk
    requires env.reply(EXISTS_CHECK).Resolved? && Trim(env.reply(EXISTS_CHECK).stdout) == "exists"
    ensures var d := Deploy(env);
      && !d.streamed && !d.cleared
      && (d.issued == [EXISTS_CHECK, EXEC_CHECK] || d.issued == [EXISTS_CHECK, EXEC_CHECK, ROOT_CHMOD])
      && (d.result.success <==>
           && env.reply(EXEC_CHECK).Resolved?
           && (Trim(env.reply(EXEC_CHECK).stdout) == "executable" || env.reply(ROOT_CHMOD).Resolved?))
  {
    assert Deploy(env) == UseExisting(env.reply);
  }

  /** A prepare command that fails stops the deployment right there: the
      commands after it are never issued and the script is never run. */
  lemma {:induction false} PrepareStopsAtFailure(reply: string -> ExecResult, i: nat, k: nat)
    requires i <= k < |PREPARE|
    requires forall j :: i <= j < k ==> Ok(reply(PREPARE[j]))
    requires !Ok(reply(PREPARE[k]))
    ensures Prepare(reply, i).issued == PREPARE[i..k + 1]
    ensures Prepare(reply, i).error.Some?
    decreases k - i
  {
    if i < k {
      PrepareStopsAtFailure(reply, i + 1, k);
      PrepareGoesOn(reply, i);
      SliceCons(PREPARE, i, k + 1);
    } else {
      PrepareStops(reply, i);
    }
  }

  lemma PrepareGoesOn(reply: string -> ExecResult, i: nat)
    requires i < |PREPARE| && Ok(reply(PREPARE[i]))
    ensures Prepare(reply, i).issued == [PREPARE[i]] + Prepare(reply, i + 1).issued
    ensures Prepare(reply, i).error == Prepare(reply, i + 1).error
  {
  }

  lemma PrepareStops(reply: string -> ExecResult, i: nat)
    requires i < |PREPARE| && !Ok(reply(PREPARE[i]))
    ensures Prepare(reply, i).issued == [PREPARE[i]] && Prepare(reply, i).error.Some?
  {
  }

  lemma SliceCons(xs: seq<string>, i: nat, j: nat)
    requires i < j <= |xs|
    ensures xs[i..j] == [xs[i]] + xs[i + 1..j]
  {
  }

  lemma FailedPrepareAborts(env: DeployEnv, k: nat)
    requires env.server == Some("online") && env.connectOk
    requires env.reply(EXISTS_CHECK).Resolved? && Trim(env.reply(EXISTS_CHECK).stdout) != "exists"
    requires k < |PREPARE|
    requires forall j :: 0 <= j < k ==> Ok(env.reply(PREPARE[j]))
    requires !Ok(env.reply(PREPARE[k]))
    ensures var d := Deploy(env);
      d.issued == [EXISTS_CHECK] + PREPARE[..k + 1] && !d.streamed && !d.result.success
  {
    PrepareStopsAtFailure(env.reply, 0, k);
    assert PREPARE[0..k + 1] == PREPARE[..k + 1];
  }
}
