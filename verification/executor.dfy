/** `executeCommand` and `executeCommandWithStream` of
    server/services/sshService.js. The transport is abstracted: what each
    attempt finds (the liveness probe, whether a connection is registered,
    whether a reconnect works, how the remote command ends) is given by an
    environment indexed by the attempt number `retryCount`. */
module Executor {
  import opened Maybe
  import opened Text

  /** `MAX_RETRIES`: retries happen only while `retryCount < 3`. */
  const MAX_RETRIES: nat := 3

  /** How one `conn.exec` ends: the `close` event with its exit code (`None`
      for ssh2's `null`) and the collected output, an `exec` callback error,
      the 60-second timer firing first, or a stream `error` event. */
  datatype Outcome =
    | Closed(code: Option<int>, stdout: string, stderr: string)
    | ExecError(message: string)
    | TimedOut
    | StreamError(message: string)

  /** What attempt `retryCount` finds. `probeOk` is the answer of
      `checkConnection`, which every attempt asks (a failing probe evicts the
      connection); only on the first attempt does a failing probe lead to a
      proactive reconnect. `present` says whether `connections[serverId]` is
      set once the probe and that reconnect are over; `connectOk` and `connectError` describe the reconnect made when
      no connection is present; `outcome` is how the command ends when one is. */
  datatype Attempt = Attempt(probeOk: bool, present: bool, connectOk: bool, connectError: string, outcome: Outcome)

  datatype Failure = NoConnection | ConnectFailed | ExecFailed | TimeoutFailed | StreamFailed

  /** The settled promise: resolved with trimmed output, or rejected. */
  datatype ExecResult =
    | Resolved(code: Option<int>, stdout: string, stderr: string)
    | Rejected(failure: Failure, message: string)

  /** A finished call: its result, the `retryCount` of the attempt that
      settled it, and how many probes, connects and `exec`s it made. */
  datatype Run = Run(result: ExecResult, last: nat, probes: nat, connects: nat, execs: nat)

  /** The attempt ends the command successfully. */
  predicate Succeeds(a: Attempt) {
    a.present && a.outcome.Closed? && a.outcome.code == Some(0)
  }

  /** The attempt leads to another attempt, provided retries remain. */
  predicate Retries(a: Attempt) {
    if a.present then !Succeeds(a) else a.connectOk
  }

  function Later(run: Run, probes: nat, connects: nat, execs: nat): Run {
    Run(run.result, run.last, run.probes + probes, run.connects + connects, run.execs + execs)
  }

  /** `executeCommand(serverId, command, retryCount)`. */
  function Execute(env: nat -> Attempt, id: string, r: nat): (run: Run)
    ensures r <= run.last && (r <= MAX_RETRIES ==> run.last <= MAX_RETRIES)
    ensures run.last > r ==> r < MAX_RETRIES
    ensures run.probes == run.last - r + 1
    ensures run.execs <= run.last - r + 1
    ensures run.last < MAX_RETRIES ==> !Retries(env(run.last)) || (run.result.Rejected? && run.result.failure == ConnectFailed)
    ensures run.result.Resolved? ==>
      var a := env(run.last);
      && a.present && a.outcome.Closed?
      && run.result == Resolved(a.outcome.code, Trim(a.outcome.stdout), Trim(a.outcome.stderr))
      && (run.result.code != Some(0) ==> run.last >= MAX_RETRIES)
    ensures run.result.Rejected? && run.result.failure == ConnectFailed ==>
      run.last < MAX_RETRIES && !env(run.last).present && !env(run.last).connectOk
    ensures run.result.Rejected? && run.result.failure != ConnectFailed ==> run.last >= MAX_RETRIES
    decreases if r <= MAX_RETRIES then MAX_RETRIES - r else 0
  {
    var a := env(r);
    var probes := 1;
    var proactive := if r == 0 && !a.probeOk then 1 else 0;
    if !a.present then
      if r >= MAX_RETRIES then
        Run(Rejected(NoConnection, "SSH连接不存在，服务器ID: " + id + "，已达到最大重试次数"), r, probes, proactive, 0)
      else if !a.connectOk then
        Run(Rejected(ConnectFailed, "执行命令失败: 无法连接到服务器 - " + a.connectError), r, probes, proactive + 1, 0)
      else
        Later(Execute(env, id, r + 1), probes, proactive + 1, 0)
    else if r < MAX_RETRIES && !Succeeds(a) then
      Later(Execute(env, id, r + 1), probes, proactive, 1)
    else
      var result := match a.outcome
        case Closed(code, out, err) => Resolved(code, Trim(out), Trim(err))
        case ExecError(m) => Rejected(ExecFailed, m)
        case TimedOut => Rejected(TimeoutFailed, "命令执行超时 (60秒)")
        case StreamError(m) => Rejected(StreamFailed, m);
      Run(result, r, probes, proactive, 1)
  }

  /** Every attempt before the one that settles the call led to a retry:
      the call never gives up early. */
  lemma {:induction false} EarlierAttemptsRetried(env: nat -> Attempt, id: string, r: nat)
    ensures RetryUntil(env, r, Execute(env, id, r).last)
    decreases if r <= MAX_RETRIES then MAX_RETRIES - r else 0
  {
    var last := Execute(env, id, r).last;
    if last > r {
      MovesOnOnlyByRetry(env, id, r);
      EarlierAttemptsRetried(env, id, r + 1);
      assert RetryUntil(env, r + 1, last);
    }
  }

  /** A call that settles later than attempt `r` went past `r` by retrying. */
  lemma MovesOnOnlyByRetry(env: nat -> Attempt, id: string, r: nat)
    requires Execute(env, id, r).last > r
    ensures r < MAX_RETRIES && Retries(env(r))
    ensures Execute(env, id, r).last == Execute(env, id, r + 1).last
  {
  }

  /** Every attempt from `r` up to, but not including, `k` leads to a retry. */
  predicate RetryUntil(env: nat -> Attempt, r: nat, k: nat)
    decreases if r < k then k - r else 0
  {
    r >= k || (Retries(env(r)) && RetryUntil(env, r + 1, k))
  }

  lemma {:induction false} RetryUntilMeans(env: nat -> Attempt, r: nat, k: nat)
    ensures RetryUntil(env, r, k) <==> forall j :: r <= j < k ==> Retries(env(j))
    decreases if r < k then k - r else 0
  {
    if r < k {
      RetryUntilMeans(env, r + 1, k);
    }
  }

  /** The attempts succeed from the first one that ends with exit code 0,
      provided every earlier one leads to a retry: the call then resolves
      with that attempt's trimmed output, at that `retryCount`. */
  lemma {:induction false} FirstSuccessWins(env: nat -> Attempt, id: string, r: nat, k: nat)
    requires r <= k <= MAX_RETRIES
    requires RetryUntil(env, r, k)
    requires Succeeds(env(k))
    ensures Execute(env, id, r).last == k
    ensures Execute(env, id, r).result == Resolved(Some(0), Trim(env(k).outcome.stdout), Trim(env(k).outcome.stderr))
    decreases k - r
  {
    if r < k {
      FirstSuccessWins(env, id, r + 1, k);
      RetryStep(env, id, r);
    } else {
      SuccessSettles(env, id, r);
    }
  }

  /** An attempt that retries passes the call on to the next attempt. */
  lemma RetryStep(env: nat -> Attempt, id: string, r: nat)
    requires r < MAX_RETRIES && Retries(env(r))
    ensures Execute(env, id, r).last == Execute(env, id, r + 1).last
    ensures Execute(env, id, r).result == Execute(env, id, r + 1).result
  {
  }

  /** A successful attempt settles the call with its output. */
  lemma SuccessSettles(env: nat -> Attempt, id: string, r: nat)
    requires Succeeds(env(r))
    ensures Execute(env, id, r).last == r
    ensures Execute(env, id, r).result
         == Resolved(Some(0), Trim(env(r).outcome.stdout), Trim(env(r).outcome.stderr))
  {
  }

  /** A command that keeps exiting non-zero is run four times in all; the
      fourth exit code is then resolved, not thrown. */
  lemma {:induction false} PersistentFailureResolves(env: nat -> Attempt, id: string, r: nat)
    requires r <= MAX_RETRIES
    requires forall j :: r <= j <= MAX_RETRIES ==> env(j).present && env(j).outcome.Closed? && env(j).outcome.code != Some(0)
    ensures var run := Execute(env, id, r);
      && run.last == MAX_RETRIES
      && run.execs == MAX_RETRIES - r + 1
      && run.result == Resolved(env(MAX_RETRIES).outcome.code, Trim(env(MAX_RETRIES).outcome.stdout), Trim(env(MAX_RETRIES).outcome.stderr))
    decreases MAX_RETRIES - r
  {
    if r < MAX_RETRIES {
      PersistentFailureResolves(env, id, r + 1);
    }
  }

  /** With no connection ever registered and every reconnect working, the
      call reconnects three times and then gives up with "no connection". */
  lemma {:induction false} NeverRegisteredGivesUp(env: nat -> Attempt, id: string, r: nat)
    requires r <= MAX_RETRIES
    requires forall j :: r <= j <= MAX_RETRIES ==> !env(j).present && env(j).connectOk
    ensures var run := Execute(env, id, r);
      && run.last == MAX_RETRIES && run.execs == 0
      && run.result.Rejected? && run.result.failure == NoConnection
    decreases MAX_RETRIES - r
  {
    if r < MAX_RETRIES {
      NeverRegisteredGivesUp(env, id, r + 1);
    }
  }

  // ---------------------------------------------------------------------------
  // streaming execution

  /** The `type` argument of the stream callback. */
  datatype Kind = LogLine | ErrorLine | SuccessLine

  datatype Line = Line(text: string, kind: Kind)

  /** One `data` event, from stdout or from stderr. */
  datatype Chunk = Chunk(fromStderr: bool, text: string)

  /** How the stream ends: `close` with its exit code, or an `error` event. */
  datatype StreamEnd = EndClosed(code: Option<int>) | EndError(message: string)

  /** What `executeCommandWithStream` meets: the liveness probe, the reconnect
      when the probe fails, whether a connection is then registered, whether
      `exec` opens a stream, the data events and the end. `reason` is the
      message of whichever error occurs. */
  datatype StreamEnv = StreamEnv(probeOk: bool, connectOk: bool, present: bool, execOk: bool,
                                 chunks: seq<Chunk>, end: StreamEnd, reason: string)

  datatype StreamResult = StreamResolved(code: Option<int>, stdout: string, stderr: string) | StreamRejected(message: string)

  datatype StreamRun = StreamRun(events: seq<Line>, result: StreamResult)

  /** The callback lines for the pieces of one chunk: each piece trimmed,
      blank pieces dropped. */
  function PieceLines(pieces: seq<string>, kind: Kind): (lines: seq<Line>)
    ensures |lines| <= |pieces|
    ensures Tagged(lines, kind)
  {
    if |pieces| == 0 then []
    else
      var t := Trim(pieces[0]);
      var rest := PieceLines(pieces[1..], kind);
      if t != "" then TaggedCons(t, kind, rest); [Line(t, kind)] + rest else rest
  }

  /** Every line is non-empty and carries the stream `kind`. */
  predicate Tagged(lines: seq<Line>, kind: Kind) {
    forall i :: 0 <= i < |lines| ==> lines[i].kind == kind && lines[i].text != ""
  }

  lemma TaggedCons(t: string, kind: Kind, rest: seq<Line>)
    requires t != "" && Tagged(rest, kind)
    ensures Tagged([Line(t, kind)] + rest, kind)
  {
    var lines := [Line(t, kind)] + rest;
    forall i | 0 < i < |lines|
      ensures lines[i].kind == kind && lines[i].text != ""
    {
      assert lines[i] == rest[i - 1];
    }
  }

  /** `text.split('\n')` and one callback per non-blank trimmed line. */
  function ChunkLines(text: string, kind: Kind): (lines: seq<Line>)
    ensures forall i :: 0 <= i < |lines| ==> lines[i].kind == kind && lines[i].text != ""
  {
    PieceLines(Split(text, '\n'), kind)
  }

  /** A line as the callback receives it: non-empty, trimmed, on one line. */
  predicate Clean(t: string) {
    t != "" && !IsSpace(t[0]) && !IsSpace(t[|t| - 1]) && Free(t, '\n')
  }

  lemma TrimClean(s: string)
    requires Free(s, '\n') && Trim(s) != ""
    ensures Clean(Trim(s))
  {
    InfixFree(s, Trim(s), |s| - |TrimStart(s)|, '\n');
  }

  /** A piece of a text without `c` is without `c`. */
  lemma InfixFree(s: string, t: string, a: nat, c: char)
    requires Free(s, c) && a + |t| <= |s| && t == s[a..a + |t|]
    ensures Free(t, c)
  {
    forall i | 0 <= i < |t|
      ensures t[i] != c
    {
      assert t[i] == s[a + i];
    }
  }

  /** Every line of `lines` is clean. */
  predicate AllClean(lines: seq<Line>) {
    forall i :: 0 <= i < |lines| ==> Clean(lines[i].text)
  }

  lemma CleanCons(t: string, kind: Kind, rest: seq<Line>)
    requires Clean(t) && AllClean(rest)
    ensures AllClean([Line(t, kind)] + rest)
  {
    var lines := [Line(t, kind)] + rest;
    forall i | 0 <= i < |lines|
      ensures Clean(lines[i].text)
    {
      if i > 0 {
        assert lines[i] == rest[i - 1];
      }
    }
  }

  lemma {:induction false} PieceLinesClean(pieces: seq<string>, kind: Kind)
    requires forall k :: 0 <= k < |pieces| ==> Free(pieces[k], '\n')
    ensures AllClean(PieceLines(pieces, kind))
    decreases |pieces|
  {
    if |pieces| > 0 {
      var t := Trim(pieces[0]);
      var rest := PieceLines(pieces[1..], kind);
      PieceLinesClean(pieces[1..], kind);
      if t != "" {
        TrimClean(pieces[0]);
        CleanCons(t, kind, rest);
      }
    }
  }

  /** Every line the callback receives is non-empty, trimmed and free of
      line breaks. */
  lemma ChunkLinesClean(text: string, kind: Kind)
    ensures forall i :: 0 <= i < |ChunkLines(text, kind)| ==> Clean(ChunkLines(text, kind)[i].text)
  {
    PieceLinesClean(Split(text, '\n'), kind);
  }

  function Texts(lines: seq<Line>): (ts: seq<string>)
    ensures |ts| == |lines|
    ensures forall i :: 0 <= i < |ts| ==> ts[i] == lines[i].text
  {
    if |lines| == 0 then [] else [lines[0].text] + Texts(lines[1..])
  }

  lemma {:induction false} PieceLinesOfClean(ts: seq<string>, kind: Kind)
    requires forall i :: 0 <= i < |ts| ==> Clean(ts[i])
    ensures Texts(PieceLines(ts, kind)) == ts
    decreases |ts|
  {
    if |ts| > 0 {
      TrimOfUntrimmed(ts[0]);
      PieceLinesOfClean(ts[1..], kind);
    }
  }

  /** A chunk made of clean lines joined by `\n` is reported line by line,
      exactly: the splitter inverts `join('\n')`. */
  lemma ChunkOfLines(ts: seq<string>, kind: Kind)
    requires |ts| >= 1
    requires forall i :: 0 <= i < |ts| ==> Clean(ts[i])
    ensures Texts(ChunkLines(Join(ts, '\n'), kind)) == ts
  {
    SplitJoin(ts, '\n');
    PieceLinesOfClean(ts, kind);
  }

  /** The callback lines of all data events, in arrival order. */
  function ChunkEvents(chunks: seq<Chunk>): (lines: seq<Line>)
    ensures forall i :: 0 <= i < |lines| ==> lines[i].kind != SuccessLine
  {
    if |chunks| == 0 then []
    else ChunkLines(chunks[0].text, if chunks[0].fromStderr then ErrorLine else LogLine) + ChunkEvents(chunks[1..])
  }

  /** The text of one stream, concatenated as received. */
  function Collected(chunks: seq<Chunk>, fromStderr: bool): string {
    if |chunks| == 0 then ""
    else (if chunks[0].fromStderr == fromStderr then chunks[0].text else "") + Collected(chunks[1..], fromStderr)
  }

  /** `${code}` for an exit code. */
  function CodeText(code: Option<int>): string {
    match code
    case None => "null"
    case Some(c) => if c < 0 then "-" + NatToString(-c) else NatToString(c)
  }

  /** `executeCommandWithStream`. */
  function ExecuteStream(env: StreamEnv): (run: StreamRun)
    ensures |run.events| > 0
    ensures forall i :: 0 <= i < |run.events| - 1 ==> run.events[i].kind != SuccessLine
    ensures run.events[|run.events| - 1].kind == SuccessLine
      <==> run.result.StreamResolved? && run.result.code == Some(0)
    ensures run.result.StreamResolved? ==>
      && env.end.EndClosed?
      && run.result.stdout == Collected(env.chunks, false)
      && run.result.stderr == Collected(env.chunks, true)
      && run.events[..|run.events| - 1] == ChunkEvents(env.chunks)
      && run.result.code == env.end.code
    ensures run.result.StreamRejected? ==> |run.events| > 0 && run.events[|run.events| - 1].kind == ErrorLine
  {
    if !env.probeOk && !env.connectOk then
      var m := "无法连接到服务器 - " + env.reason;
      StreamRun([Line("重新连接服务器失败: " + env.reason, ErrorLine), Line("执行命令异常: " + m, ErrorLine)], StreamRejected(m))
    else if !env.present then
      StreamRun([Line("SSH连接不存在", ErrorLine), Line("执行命令异常: SSH连接不存在", ErrorLine)], StreamRejected("SSH连接不存在"))
    else if !env.execOk then
      StreamRun([Line("创建命令流失败: " + env.reason, ErrorLine)], StreamRejected(env.reason))
    else
      var lines := ChunkEvents(env.chunks);
      match env.end
      case EndError(m) => StreamRun(lines + [Line("流错误: " + m, ErrorLine)], StreamRejected(m))
      case EndClosed(code) =>
        var last := if code == Some(0) then Line("命令执行完成", SuccessLine)
                    else Line("命令执行失败，退出码: " + CodeText(code), ErrorLine);
        StreamRun(lines + [last], StreamResolved(code, Collected(env.chunks, false), Collected(env.chunks, true)))
  }

  /** Unlike `executeCommand`, the streaming call keeps its output as it came:
      a chunk with surrounding blanks is returned with them. */
  lemma StreamKeepsBlanks(out: string)
    ensures var env := StreamEnv(true, true, true, true, [Chunk(false, "  " + out + "\n")], EndClosed(Some(0)), "");
      ExecuteStream(env).result == StreamResolved(Some(0), "  " + out + "\n", "")
  {
    var env := StreamEnv(true, true, true, true, [Chunk(false, "  " + out + "\n")], EndClosed(Some(0)), "");
    assert env.chunks[1..] == [];
    assert Collected(env.chunks, false) == "  " + out + "\n" + "";
    assert Collected(env.chunks, true) == "" + "";
    assert ExecuteStream(env).result.StreamResolved?;
  }
}
