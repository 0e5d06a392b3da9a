/** The management-port guard of client/src/views/RulesScript.js: which
    ports count as the SSH port, which need a confirmation before they are
    disallowed, the disallow flow itself, the debounce of repeated IP-list
    operations, and the reading of the SSH port from the script's report.
    Dialog answers, remote replies and the clock are parameters. */
module ClientGuard {
  import opened Maybe
  import opened Text
  import opened JsValues
  import ClientCache

  /** `parseInt(port, 10)`, with `None` for `NaN`. */
  function Parsed(port: Value): Option<int> {
    ParseInt(ToStr(port))
  }

  /** The ports that the guard treats as the management port: 22 always,
      the detected SSH port when it is a non-zero number, and the selected
      server's configured port when that is a number. */
  function ManagementPorts(sshPort: Value, server: Option<Object>): (ports: set<int>)
    ensures 22 in ports
    ensures forall n :: n in ports && n != 22 ==>
      (sshPort == Num(n) && n != 0) || (server.Some? && Get(server.value, "port") == Num(n))
    ensures sshPort.Num? && sshPort.n != 0 ==> sshPort.n in ports
    ensures server.Some? && Get(server.value, "port").Num? ==> Get(server.value, "port").n in ports
  {
    {22}
    + (if sshPort.Num? && sshPort.n != 0 then {sshPort.n} else {})
    + (if server.Some? && Get(server.value, "port").Num? then {Get(server.value, "port").n} else {})
  }

  /** `isSshPort(port)`: three checks in turn, each comparing strictly
      against the parsed port, so `NaN` never matches. */
  function IsSshPort(port: Value, sshPort: Value, server: Option<Object>): (ssh: bool)
    ensures ssh <==> Parsed(port).Some? && Parsed(port).value in ManagementPorts(sshPort, server)
  {
    SshChecks(Parsed(port), sshPort, server)
  }

  /** The three checks on the parsed port `p`. */
  function SshChecks(p: Option<int>, sshPort: Value, server: Option<Object>): (ssh: bool)
    ensures ssh <==> p.Some? && p.value in ManagementPorts(sshPort, server)
  {
    if Truthy(sshPort) && p.Some? && sshPort == Num(p.value) then true
    else if server.Some? && p.Some? && Get(server.value, "port") == Num(p.value) then true
    else p == Some(22)
  }

  /** `criticalPorts`. */
  const CRITICAL: seq<int> := [22, 80, 443, 3306, 6379, 8080, 8443, 27017, 5432]

  /** `parseInt` of `undefined` or `null` is `NaN`. */
  lemma NullishNotParsed(port: Value)
    ensures port == Undefined || port == Null ==> Parsed(port).None?
  {
    if port == Undefined || port == Null {
      var t := ToStr(port);
      assert t[0] == 'u' || t[0] == 'n';
      ParseIntNoNumber(t);
    }
  }

  /** `isCriticalPort(port)`. */
  function IsCriticalPort(port: Value): (critical: bool)
    ensures critical <==> Parsed(port).Some? && Parsed(port).value in CRITICAL
  {
    var p := Parsed(port);
    p.Some? && p.value in CRITICAL
  }

  /** A port written as a number followed by text that does not start with a
      digit (`"22/tcp"`) is read as that number, so it is guarded exactly like
      the number itself. */
  lemma SuffixIgnored(n: nat, rest: string, sshPort: Value, server: Option<Object>)
    requires |rest| > 0 ==> !IsDigit(rest[0])
    ensures Parsed(Str(NatToString(n) + rest)) == Some(n)
    ensures IsSshPort(Str(NatToString(n) + rest), sshPort, server) == IsSshPort(Num(n), sshPort, server)
    ensures IsCriticalPort(Str(NatToString(n) + rest)) == IsCriticalPort(Num(n))
  {
    var d := NatToString(n);
    var s := d + rest;
    assert s[0] == d[0];
    var t := TrimStart(s);
    assert !IsSpace(s[0]);
    assert t == s;
    assert SignStripped(s) == s;
    DigitPrefixOfRun(d, rest);
    assert s[..|d|] == d;
    NatToStringRoundTrip(n);
    ParseIntOfNat(n);
  }

  /** A configured port stored as text is never matched by the strict
      comparison with the parsed number: unless it is 22 or the detected
      port, the server's own port is not protected. */
  lemma TextServerPortNotRecognised(n: nat, sshPort: Value)
    requires n != 22 && sshPort != Num(n)
    ensures !IsSshPort(Num(n), sshPort, Some(map["port" := Str(NatToString(n))]))
  {
    ParseIntOfNat(n);
  }

  // ---------------------------------------------------------------------------
  // disallowing a port

  /** What the remote call answered: `success` set, a failure with its
      `error` value, or a thrown error with its message. */
  datatype Reply = Succeeded | Failed(error: Value) | Threw(message: string)

  /** The port text sent (when a request was made), the message shown, and
      the cache afterwards. */
  datatype Outcome = Outcome(sent: Option<string>, message: string, cache: ClientCache.Cache)

  const NO_SERVER := "未指定服务器ID，无法执行取消放行操作"
  const SSH_REFUSED := "不能取消SSH端口的放行，这可能导致无法连接服务器"
  const CANCELLED := "已取消操作"

  /** The message of the `TypeError` that `port.toString()` raises on
      `undefined` or `null`, as the browser's engine words it, behind the
      handler's prefix. */
  function ThrownNotice(port: Value): string {
    "取消放行端口错误: Cannot read properties of " + ToStr(port) + " (reading 'toString')"
  }

  /** The message after the request: success, the reply's error or a default
      text, or the thrown error's message. */
  function Notice(port: Value, reply: Reply): string {
    match reply
    case Succeeded => "成功取消放行端口: " + ToStr(port)
    case Failed(error) => if Truthy(error) then ToStr(error) else "取消放行入网端口失败"
    case Threw(m) => "取消放行端口错误: " + m
  }

  /** `disallowPort(port)` followed, when it gets that far, by
      `executeDisallowPort(port)`: no server id and the SSH port are refused
      without a request; a critical port asks first and a declined dialog
      cancels; otherwise the port is sent and a successful reply removes it
      from the cached lists. */
  function DisallowPort(serverId: string, port: Value, sshPort: Value, server: Option<Object>,
                        confirmed: bool, reply: Reply, c: ClientCache.Cache, now: int): (o: Outcome)
    ensures o.sent.Some? <==>
      && serverId != "" && !IsSshPort(port, sshPort, server) && (!IsCriticalPort(port) || confirmed)
      && port != Undefined && port != Null
    ensures o.sent.None? ==> o.cache == c
    ensures o.sent.Some? ==>
      && o.sent.value == ToStr(port)
      && o.cache == ClientCache.ExecuteDisallowPort(c, port, reply.Succeeded?, now).cache
    ensures serverId == "" ==> o.message == NO_SERVER
    ensures serverId != "" && IsSshPort(port, sshPort, server) ==> o.message == SSH_REFUSED
    ensures serverId != "" && (port == Undefined || port == Null) ==> o.message == ThrownNotice(port)
  {
    NullishNotParsed(port);
    if serverId == "" then Outcome(None, NO_SERVER, c)
    else if IsSshPort(port, sshPort, server) then Outcome(None, SSH_REFUSED, c)
    else if IsCriticalPort(port) && !IsSshPort(port, sshPort, server) && !confirmed then
      Outcome(None, CANCELLED, c)
    else
      var d := ClientCache.ExecuteDisallowPort(c, port, reply.Succeeded?, now);
      Outcome(d.sent, if d.sent.None? then ThrownNotice(port) else Notice(port, reply), d.cache)
  }

  /** Port 22, however it is spelled and whatever port was detected or
      configured, is never sent for removal and never leaves the cache. */
  lemma DefaultSshPortNeverDisallowed(serverId: string, port: Value, sshPort: Value, server: Option<Object>,
                                      confirmed: bool, reply: Reply, c: ClientCache.Cache, now: int)
    ensures Parsed(port) == Some(22) ==>
      && DisallowPort(serverId, port, sshPort, server, confirmed, reply, c, now).sent.None?
      && DisallowPort(serverId, port, sshPort, server, confirmed, reply, c, now).cache == c
  {
  }

  /** The SSH port detected from the script's report, when it is a
      non-zero number, is likewise never sent for removal, however the
      port to disallow spells it. */
  lemma DetectedSshPortNeverDisallowed(serverId: string, port: Value, sshPort: Value, server: Option<Object>,
                                       confirmed: bool, reply: Reply, c: ClientCache.Cache, now: int)
    requires sshPort.Num? && sshPort.n != 0
    ensures Parsed(port) == Some(sshPort.n) ==>
      && DisallowPort(serverId, port, sshPort, server, confirmed, reply, c, now).sent.None?
      && DisallowPort(serverId, port, sshPort, server, confirmed, reply, c, now).cache == c
  {
  }

  /** A non-critical, non-SSH port goes through without asking, so the
      dialog's answer does not matter. */
  lemma ConfirmationOnlyForCriticalPorts(serverId: string, port: Value, sshPort: Value, server: Option<Object>,
                                         reply: Reply, c: ClientCache.Cache, now: int)
    ensures !IsCriticalPort(port) ==>
      DisallowPort(serverId, port, sshPort, server, false, reply, c, now)
        == DisallowPort(serverId, port, sshPort, server, true, reply, c, now)
  {
  }

  // ---------------------------------------------------------------------------
  // debouncing IP-list operations

  /** `ipOperationDebounce`: the last action and IP let through and when the
      cool-down timer fires (`None` before the first operation). Clearing
      the previous timer and starting a new one is the new firing time. */
  datatype Debounce = Debounce(lastIp: Value, lastAction: Value, firesAt: Option<int>)

  const COOLDOWN: int := 2000

  function InitialDebounce(): (d: Debounce)
    ensures !CoolingDown(d, 0)
  {
    Debounce(Str(""), Null, None)
  }

  /** The cool-down flag at time `now`: set by the last operation let
      through and cleared when its timer fires. */
  predicate CoolingDown(d: Debounce, now: int) {
    d.firesAt.Some? && now < d.firesAt.value
  }

  datatype Checked = Checked(blocked: bool, state: Debounce)

  /** `isIpOperationDebounced(actionType, ip)` at time `now`. */
  function IsIpOperationDebounced(d: Debounce, action: Value, ip: Value, now: int): (c: Checked)
    ensures c.blocked <==> CoolingDown(d, now) && d.lastAction == action && d.lastIp == ip
    ensures c.blocked ==> c.state == d
    ensures !c.blocked ==> CoolingDown(c.state, now) && !CoolingDown(c.state, now + COOLDOWN)
  {
    if CoolingDown(d, now) && d.lastAction == action && d.lastIp == ip then Checked(true, d)
    else Checked(false, Debounce(ip, action, Some(now + COOLDOWN)))
  }

  /** One IP-list operation request: the action, the IP and the time. */
  datatype Request = Request(action: Value, ip: Value, at: int)

  /** The state a request let through leaves: its action and IP, and a
      timer firing two seconds after it. */
  function LetThrough(q: Request): Debounce {
    Debounce(q.ip, q.action, Some(q.at + COOLDOWN))
  }

  /** Feeding requests in order; the result counts those let through. When
      none is let through the state is as before; otherwise the state is
      the one left by some request `rs[i]` and every later request is
      blocked by it, so `rs[i]` is the last one let through. */
  function Run(d: Debounce, rs: seq<Request>): (r: (nat, Debounce))
    ensures r.0 <= |rs|
    ensures r.0 == 0 ==> r.1 == d
    ensures r.0 > 0 ==> exists i :: 0 <= i < |rs| && r.1 == LetThrough(rs[i]) && Run(r.1, rs[i + 1..]).0 == 0
    decreases |rs|
  {
    if |rs| == 0 then (0, d)
    else
      var c := IsIpOperationDebounced(d, rs[0].action, rs[0].ip, rs[0].at);
      var rest := Run(c.state, rs[1..]);
      var r := ((if c.blocked then 0 else 1) + rest.0, rest.1);
      if rest.0 > 0 then
        // the last request the tail lets through is one of ours, one place further on
        var i :| 0 <= i < |rs[1..]| && rest.1 == LetThrough(rs[1..][i]) && Run(rest.1, rs[1..][i + 1..]).0 == 0;
        assert rs[i + 1] == rs[1..][i] && rs[1..][i + 1..] == rs[i + 2..];
        r
      else
        assert !c.blocked ==> r.1 == LetThrough(rs[0]) && Run(r.1, rs[1..]) == rest;
        r
  }

  /** Repeats of the operation last let through, while its cool-down lasts,
      are all blocked and leave the state alone. */
  lemma {:induction false} RepeatsBlocked(d: Debounce, rs: seq<Request>)
    requires forall i :: 0 <= i < |rs| ==>
      rs[i].action == d.lastAction && rs[i].ip == d.lastIp && CoolingDown(d, rs[i].at)
    ensures Run(d, rs) == (0, d)
    decreases |rs|
  {
    if |rs| > 0 {
      RepeatsBlocked(d, rs[1..]);
    }
  }

  /** A burst of identical requests within two seconds of the first is let
      through exactly once, when the cool-down is not already running for
      that operation. */
  lemma BurstLetThroughOnce(d: Debounce, action: Value, ip: Value, rs: seq<Request>)
    requires |rs| > 0
    requires !(CoolingDown(d, rs[0].at) && d.lastAction == action && d.lastIp == ip)
    requires forall i :: 0 <= i < |rs| ==>
      rs[i].action == action && rs[i].ip == ip && rs[0].at <= rs[i].at < rs[0].at + COOLDOWN
    ensures Run(d, rs).0 == 1
  {
    var c := IsIpOperationDebounced(d, action, ip, rs[0].at);
    assert !c.blocked && c.state == Debounce(ip, action, Some(rs[0].at + COOLDOWN));
    var tail := rs[1..];
    assert forall i :: 0 <= i < |tail| ==> tail[i] == rs[i + 1];
    RepeatsBlocked(c.state, tail);
  }

  /** Another IP, or another action, is never blocked. */
  lemma OtherTargetPasses(d: Debounce, action: Value, ip: Value, now: int)
    requires d.lastIp != ip || d.lastAction != action
    ensures !IsIpOperationDebounced(d, action, ip, now).blocked
  {
  }

  /** Once the timer has fired the same operation passes again. */
  lemma PassesAfterCooldown(d: Debounce, action: Value, ip: Value, at: int, later: int)
    requires later >= at + COOLDOWN
    ensures var first := IsIpOperationDebounced(d, action, ip, at);
      !first.blocked ==> !IsIpOperationDebounced(first.state, action, ip, later).blocked
  {
  }

  // ---------------------------------------------------------------------------
  // reading the SSH port from the script's report

  /** The case folding of a regular expression with the `i` flag and without
      `u`: ASCII letters only, for the letters the patterns use. */
  function Fold(c: char): char {
    if 'A' <= c <= 'Z' then (c as int + 32) as char else c
  }

  /** The keyword `kw` (written in lower case) occurs at `i`, ignoring case. */
  predicate KeywordAt(s: string, i: nat, kw: string) {
    i + |kw| <= |s| && forall j :: 0 <= j < |kw| ==> Fold(s[i + j]) == kw[j]
  }

  /** Index after the white space starting at `i`: what a greedy `\s*`
      consumes. */
  function SpacesEnd(s: string, i: nat): (j: nat)
    requires i <= |s|
    ensures i <= j <= |s|
    ensures forall k :: i <= k < j ==> IsSpace(s[k])
    ensures j < |s| ==> !IsSpace(s[j])
    decreases |s| - i
  {
    if i < |s| && IsSpace(s[i]) then SpacesEnd(s, i + 1) else i
  }

  predicate IsColon(c: char) {
    c == ':' || c == '：'
  }

  /** `kw\s*[:：]\s*(\d+)` tried at index `i`, giving the captured digits.
      The spaces cannot give anything back to the colon or the digits, so
      greedy matching is the only way the pattern can match here. */
  function MatchAt(s: string, i: nat, kw: string): (d: Option<string>)
    ensures d.Some? ==> KeywordAt(s, i, kw) && IsDigitRun(d.value)
  {
    if !KeywordAt(s, i, kw) then None
    else
      var j := SpacesEnd(s, i + |kw|);
      if j < |s| && IsColon(s[j]) then
        var k := SpacesEnd(s, j + 1);
        var n := DigitPrefixLen(s[k..]);
        if n > 0 then Some(s[k..][..n]) else None
      else None
  }

  /** The pattern matches at no index in `[from, to)`. */
  predicate NoMatch(s: string, kw: string, from: nat, to: nat) {
    forall i :: from <= i < to ==> MatchAt(s, i, kw).None?
  }

  /** Where `s.match(re)` finds one of the patterns: the leftmost index at or
      after `from` at which it matches. */
  function Leftmost(s: string, kw: string, from: nat): (i: Option<nat>)
    ensures i.None? <==> NoMatch(s, kw, from, |s| + 1)
    ensures i.Some? ==> from <= i.value <= |s| && MatchAt(s, i.value, kw).Some? && NoMatch(s, kw, from, i.value)
    decreases |s| - from
  {
    if from > |s| then None
    else if MatchAt(s, from, kw).Some? then Some(from)
    else
      var r := Leftmost(s, kw, from + 1);
      NoMatchGrows(s, kw, from, if r.Some? then r.value else |s| + 1);
      r
  }

  lemma NoMatchGrows(s: string, kw: string, from: nat, to: nat)
    requires MatchAt(s, from, kw).None? && NoMatch(s, kw, from + 1, to)
    ensures NoMatch(s, kw, from, to)
  {
  }

  /** The digits `s.match(re)` captures, or `None` for `null`. */
  function FirstMatch(s: string, kw: string): (d: Option<string>)
    ensures d.None? <==> NoMatch(s, kw, 0, |s| + 1)
    ensures d.Some? ==> IsDigitRun(d.value)
  {
    match Leftmost(s, kw, 0)
    case None => None
    case Some(i) => MatchAt(s, i, kw)
  }

  /** The three patterns, in the order they are tried. */
  const PATTERNS: seq<string> := ["ssh端口", "端口", "port"]

  /** The first pattern (in order) that matches anywhere, and its leftmost
      capture. */
  function Detected(s: string): (d: Option<string>)
    ensures d.Some? ==> IsDigitRun(d.value)
    ensures d.None? <==>
      NoMatch(s, PATTERNS[0], 0, |s| + 1) && NoMatch(s, PATTERNS[1], 0, |s| + 1) && NoMatch(s, PATTERNS[2], 0, |s| + 1)
  {
    var a := FirstMatch(s, PATTERNS[0]);
    if a.Some? then a
    else
      var b := FirstMatch(s, PATTERNS[1]);
      if b.Some? then b else FirstMatch(s, PATTERNS[2])
  }

  /** The `sshPort` after the status reply: a non-empty text reply in which
      a pattern matches sets it to the captured number; anything else leaves
      it as it was. */
  function ExtractSshPort(data: Value, current: Value): (port: Value)
    ensures !data.Str? || data.s == "" ==> port == current
    ensures data.Str? && Detected(data.s).None? ==> port == current
    ensures data.Str? && Detected(data.s).Some? ==>
      port.Num? && port.n >= 0 && port == Num(DigitsValue(Detected(data.s).value))
  {
    if data.Str? && data.s != "" then
      match Detected(data.s)
      case Some(digits) => Num(DigitsValue(digits))
      case None => current
    else current
  }

  /** The white space that a `\s*` may cover. */
  predicate Blank(s: string) {
    forall i :: 0 <= i < |s| ==> IsSpace(s[i])
  }

  lemma {:induction false} SpacesOver(s: string, i: nat, sp: string)
    requires Blank(sp) && At(s, i, sp)
    requires i + |sp| < |s| && !IsSpace(s[i + |sp|])
    ensures SpacesEnd(s, i) == i + |sp|
    decreases |sp|
  {
    if |sp| > 0 {
      assert s[i] == sp[0];
      assert At(s, i + 1, sp[1..]) by {
        assert s[i + 1..i + 1 + |sp[1..]|] == s[i..i + |sp|][1..];
      }
      SpacesOver(s, i + 1, sp[1..]);
    }
  }

  /** The pattern matches where the keyword is followed by blanks up to
      index `j`, a colon there, blanks up to `k` and then digits to the end,
      capturing the digits. */
  lemma MatchAtDigits(s: string, i: nat, kw: string, j: nat, k: nat)
    requires KeywordAt(s, i, kw)
    requires i + |kw| <= |s| && SpacesEnd(s, i + |kw|) == j
    requires j < |s| && IsColon(s[j]) && SpacesEnd(s, j + 1) == k
    requires IsDigitRun(s[k..])
    ensures MatchAt(s, i, kw) == Some(s[k..])
  {
    DigitPrefixOfRun(s[k..], "");
    assert s[k..] + "" == s[k..];
    assert s[k..][..|s[k..]|] == s[k..];
  }

  /** Blanks and a colon: `\s*` stops at the colon. */
  lemma BlanksThenColon(s: string, a: nat, sp: string, colon: char, rest: string)
    requires a <= |s| && s[a..] == sp + [colon] + rest
    requires Blank(sp) && IsColon(colon)
    ensures SpacesEnd(s, a) == a + |sp|
    ensures a + |sp| < |s| && s[a + |sp|] == colon && s[a + |sp| + 1..] == rest
  {
    var t := s[a..];
    assert t[|sp|] == colon;
    assert s[a..a + |sp|] == t[..|sp|] == sp;
    SpacesOver(s, a, sp);
    assert s[a + |sp| + 1..] == t[|sp| + 1..];
  }

  /** Blanks and digits: `\s*` stops at the first digit. */
  lemma BlanksThenDigits(s: string, b: nat, sp: string, digits: string)
    requires b <= |s| && s[b..] == sp + digits
    requires Blank(sp) && IsDigitRun(digits)
    ensures SpacesEnd(s, b) == b + |sp| && b + |sp| <= |s| && s[b + |sp|..] == digits
  {
    var t := s[b..];
    assert t[|sp|] == digits[0];
    assert s[b..b + |sp|] == t[..|sp|] == sp;
    SpacesOver(s, b, sp);
    assert s[b + |sp|..] == t[|sp|..];
  }

  /** The pattern matches a line that ends with the keyword, blanks, a
      colon, blanks and digits, capturing the digits. */
  lemma LineMatches(s: string, i: nat, kw: string, sp1: string, colon: char, sp2: string, digits: string)
    requires KeywordAt(s, i, kw)
    requires Blank(sp1) && Blank(sp2) && IsColon(colon) && IsDigitRun(digits)
    requires s[i + |kw|..] == sp1 + [colon] + sp2 + digits
    ensures MatchAt(s, i, kw) == Some(digits)
  {
    var a := i + |kw|;
    assert s[a..] == sp1 + [colon] + (sp2 + digits);
    BlanksThenColon(s, a, sp1, colon, sp2 + digits);
    var j := a + |sp1|;
    BlanksThenDigits(s, j + 1, sp2, digits);
    var k := j + 1 + |sp2|;
    assert s[k..] == digits;
    MatchAtDigits(s, i, kw, j, k);
    assert MatchAt(s, i, kw) == Some(s[k..]);
  }

  /** A report line `SSH端口` (in any letter case), optional blanks, a colon
      of either width, optional blanks and a port number is read back as
      that number. */
  lemma ReportRoundTrip(ssh: string, sp1: string, colon: char, sp2: string, n: nat, current: Value)
    requires |ssh| == 3 && Fold(ssh[0]) == 's' && Fold(ssh[1]) == 's' && Fold(ssh[2]) == 'h'
    requires Blank(sp1) && Blank(sp2) && IsColon(colon)
    ensures ExtractSshPort(Str(ssh + "端口" + sp1 + [colon] + sp2 + NatToString(n)), current) == Num(n)
  {
    var digits := NatToString(n);
    var kw := ssh + "端口";
    var s := kw + sp1 + [colon] + sp2 + digits;
    assert KeywordAt(s, 0, PATTERNS[0]) by {
      forall j | 0 <= j < |PATTERNS[0]|
        ensures Fold(s[j]) == PATTERNS[0][j]
      {
        assert s[j] == kw[j];
      }
    }
    assert s[|PATTERNS[0]|..] == sp1 + [colon] + sp2 + digits;
    LineMatches(s, 0, PATTERNS[0], sp1, colon, sp2, digits);
    assert Leftmost(s, PATTERNS[0], 0) == Some(0);
    NatToStringRoundTrip(n);
  }
}
