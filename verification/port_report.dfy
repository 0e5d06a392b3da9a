/** The parsers that turn the remote script's human-readable report into data:
    colour-code stripping, the TCP/UDP port-list parser and the IPv4 scanner
    (server/services/nftablesService.js, `_parsePortOutput` and `_parseIPOutput`).
    The regular expressions of the source are written out as string functions;
    the comments on each give the expression it stands for. */
module PortReport {
  import opened Maybe
  import opened Text

  const ESC: char := '\U{1B}'

  // ---------------------------------------------------------------------------
  // colour codes: /\u001b\[\d+(;\d+)?m/g

  /** Length of the colour code at the start of `s`, if one starts there.
      Both `\d+` runs are maximal: a shorter run would leave a digit where
      `;` or `m` is needed, so the expression never backtracks into them. */
  function AnsiLen(s: string): (r: Option<nat>)
    ensures r.Some? ==> 4 <= r.value <= |s|
  {
    if |s| >= 2 && s[0] == ESC && s[1] == '[' then
      var d1 := DigitPrefixLen(s[2..]);
      var j := 2 + d1;
      if d1 == 0 || j >= |s| then None
      else if s[j] == 'm' then Some(j + 1)
      else if s[j] == ';' then
        var d2 := DigitPrefixLen(s[j + 1..]);
        var e := j + 1 + d2;
        if d2 > 0 && e < |s| && s[e] == 'm' then Some(e + 1) else None
      else None
    else None
  }

  /** `s.replace(/\u001b\[\d+(;\d+)?m/g, '')`: one left-to-right pass; text
      that only becomes a colour code once an inner one is removed stays. */
  function StripAnsi(s: string): (r: string)
    ensures |r| <= |s|
    decreases |s|
  {
    if |s| == 0 then ""
    else match AnsiLen(s)
      case Some(n) => StripAnsi(s[n..])
      case None => [s[0]] + StripAnsi(s[1..])
  }

  /** `c` occurs nowhere in `s`. */
  predicate Lacks(s: string, c: char) {
    forall i :: 0 <= i < |s| ==> s[i] != c
  }

  predicate NoEsc(s: string) {
    Lacks(s, ESC)
  }

  /** The colour code `ESC [ p m`, or `ESC [ p ; q m` when `q` is given. */
  function ColourCode(p: nat, q: Option<nat>): string {
    [ESC, '['] + Params(p, q) + "m"
  }

  lemma {:induction false} StripPlain(s: string)
    requires NoEsc(s)
    ensures StripAnsi(s) == s
    decreases |s|
  {
    if |s| > 0 {
      StripPlain(s[1..]);
    }
  }

  function Params(p: nat, q: Option<nat>): string {
    NatToString(p) + (match q case Some(x) => ";" + NatToString(x) case None => "")
  }

  lemma ParamsThenM(p: nat, q: Option<nat>, rest: string)
    ensures var t := Params(p, q) + "m" + rest;
      var d1 := DigitPrefixLen(t);
      && d1 == |NatToString(p)|
      && d1 < |t|
      && (q.None? ==> t[d1] == 'm')
      && (q.Some? ==> t[d1] == ';' && DigitPrefixLen(t[d1 + 1..]) == |NatToString(q.value)|
                      && t[d1 + 1 + |NatToString(q.value)|] == 'm')
  {
    match q {
      case None => OneParam(p, rest);
      case Some(x) => TwoParams(p, x, rest);
    }
  }

  lemma OneParam(p: nat, rest: string)
    ensures var t := Params(p, None) + "m" + rest;
      DigitPrefixLen(t) == |NatToString(p)| < |t| && t[|NatToString(p)|] == 'm'
  {
    assert Params(p, None) + "m" + rest == NatToString(p) + (['m'] + rest);
    DigitsThen(NatToString(p), 'm', rest);
  }

  lemma TwoParams(p: nat, x: nat, rest: string)
    ensures var t := Params(p, Some(x)) + "m" + rest;
      var d1 := |NatToString(p)|;
      && DigitPrefixLen(t) == d1 < |t| && t[d1] == ';'
      && DigitPrefixLen(t[d1 + 1..]) == |NatToString(x)| && t[d1 + 1 + |NatToString(x)|] == 'm'
  {
    PairLayout(p, x, rest);
    DigitsThen(NatToString(p), ';', NatToString(x) + ("m" + rest));
    DigitsThen(NatToString(x), 'm', rest);
  }

  lemma PairLayout(p: nat, x: nat, rest: string)
    ensures Params(p, Some(x)) + "m" + rest == NatToString(p) + ([';'] + (NatToString(x) + (['m'] + rest)))
  {
  }

  /** A digit run, then a non-digit `c`, then `b`: where each part sits. */
  lemma DigitsThen(d: string, c: char, b: string)
    requires AllDigits(d) && !IsDigit(c)
    ensures DigitPrefixLen(d + ([c] + b)) == |d|
    ensures (d + ([c] + b))[|d|] == c && (d + ([c] + b))[|d| + 1..] == b
  {
    DigitPrefixOfRun(d, [c] + b);
    AfterPrefix(d, [c] + b);
  }

  /** What follows a prefix in a concatenation. */
  lemma AfterPrefix(d: string, t: string)
    requires |t| > 0
    ensures (d + t)[|d|] == t[0] && (d + t)[|d| + 1..] == t[1..]
  {
    assert (d + t)[|d|..] == t;
  }

  lemma ColourCodeLen(p: nat, q: Option<nat>, rest: string)
    ensures AnsiLen(ColourCode(p, q) + rest) == Some(|ColourCode(p, q)|)
  {
    var s := ColourCode(p, q) + rest;
    assert ColourCode(p, q) == [ESC, '['] + Params(p, q) + "m";
    assert s[2..] == Params(p, q) + "m" + rest;
    ParamsThenM(p, q, rest);
  }

  /** A colour code between plain text and the rest of the report is removed
      and nothing else is: colour never reaches the port or IP matching. */
  lemma {:induction false} StripColoured(plain: string, p: nat, q: Option<nat>, rest: string)
    requires NoEsc(plain)
    ensures StripAnsi(plain + ColourCode(p, q) + rest) == plain + StripAnsi(rest)
    decreases |plain|
  {
    var code := ColourCode(p, q);
    Regroup(plain, code, rest);
    if |plain| == 0 {
      StripCode(p, q, rest);
    } else {
      StripPlainStep(plain, code + rest);
      StripColoured(plain[1..], p, q, rest);
      ConsBack(plain, StripAnsi(rest));
    }
  }

  /** Concatenation regrouped around the first character. */
  lemma Regroup(a: string, b: string, c: string)
    ensures a + b + c == a + (b + c)
    ensures |a| == 0 ==> a + b + c == b + c
    ensures |a| > 0 ==> a[1..] + (b + c) == a[1..] + b + c
  {
  }

  lemma ConsBack(a: string, x: string)
    requires |a| > 0
    ensures [a[0]] + (a[1..] + x) == a + x
  {
    assert a == [a[0]] + a[1..];
  }

  /** A colour code at the front is dropped whole. */
  lemma StripCode(p: nat, q: Option<nat>, rest: string)
    ensures StripAnsi(ColourCode(p, q) + rest) == StripAnsi(rest)
  {
    ColourCodeLen(p, q, rest);
    assert (ColourCode(p, q) + rest)[|ColourCode(p, q)|..] == rest;
  }

  /** A first character that is not `ESC` is kept. */
  lemma StripPlainStep(plain: string, tail: string)
    requires |plain| > 0 && NoEsc(plain)
    ensures StripAnsi(plain + tail) == [plain[0]] + StripAnsi(plain[1..] + tail)
  {
    var s := plain + tail;
    assert s[0] == plain[0];
    assert AnsiLen(s).None?;
    assert s[1..] == plain[1..] + tail;
  }

  // ---------------------------------------------------------------------------
  // digit runs: /\d+/g

  /** Every maximal digit run of `t`, left to right, duplicates kept. */
  function DigitRuns(t: string): (runs: seq<string>)
    ensures forall k :: 0 <= k < |runs| ==> IsDigitRun(runs[k])
    decreases |t|
  {
    if |t| == 0 then []
    else if !IsDigit(t[0]) then DigitRuns(t[1..])
    else
      var n := DigitPrefixLen(t);
      [t[..n]] + DigitRuns(t[n..])
  }

  /** `runs.map(p => parseInt(p, 10))`. */
  function Values(runs: seq<string>): (vs: seq<nat>)
    requires forall k :: 0 <= k < |runs| ==> IsDigitRun(runs[k])
    ensures |vs| == |runs|
    ensures forall k :: 0 <= k < |runs| ==> IsDigitRun(runs[k]) && vs[k] == DigitsValue(runs[k])
  {
    if |runs| == 0 then []
    else
      assert IsDigitRun(runs[0]);
      [DigitsValue(runs[0])] + Values(runs[1..])
  }

  predicate NoDigit(t: string) {
    forall i :: 0 <= i < |t| ==> !IsDigit(t[i])
  }

  lemma {:induction false} DigitRunsSkip(a: string, b: string)
    requires NoDigit(a)
    ensures DigitRuns(a + b) == DigitRuns(b)
    decreases |a|
  {
    if |a| > 0 {
      assert (a + b)[0] == a[0];
      assert !IsDigit(a[0]);
      assert (a + b)[1..] == a[1..] + b;
      DigitRunsSkip(a[1..], b);
    } else {
      assert a + b == b;
    }
  }

  lemma DigitRunsLead(d: string, rest: string)
    requires IsDigitRun(d)
    requires |rest| > 0 ==> !IsDigit(rest[0])
    ensures DigitRuns(d + rest) == [d] + DigitRuns(rest)
  {
    DigitPrefixOfRun(d, rest);
    assert (d + rest)[..|d|] == d;
    assert (d + rest)[|d|..] == rest;
  }

  // ---------------------------------------------------------------------------
  // section headers and terminators

  /** `tag` followed by at least one white-space character starts at `i`. */
  predicate HeaderAt(s: string, i: nat, tag: string) {
    At(s, i, tag) && i + |tag| < |s| && IsSpace(s[i + |tag|])
  }

  /** The leftmost header at or after `i`. */
  function FirstHeader(s: string, tag: string, i: nat): (r: Option<nat>)
    ensures r.Some? ==> i <= r.value && HeaderAt(s, r.value, tag)
    ensures r.Some? ==> forall q :: i <= q < r.value ==> !HeaderAt(s, q, tag)
    ensures r.None? ==> forall q :: i <= q ==> !HeaderAt(s, q, tag)
    decreases |s| - i
  {
    if i >= |s| then None
    else if HeaderAt(s, i, tag) then Some(i)
    else FirstHeader(s, tag, i + 1)
  }

  /** End of the (greedy) white-space run that starts at `i`. */
  function SpaceRunEnd(s: string, i: nat): (j: nat)
    requires i <= |s|
    ensures i <= j <= |s|
    ensures forall q :: i <= q < j ==> IsSpace(s[q])
    ensures j < |s| ==> !IsSpace(s[j])
    decreases |s| - i
  {
    if i < |s| && IsSpace(s[i]) then SpaceRunEnd(s, i + 1) else i
  }

  /** `(?=\n={3,}|\nUDP)`: where the TCP section stops. */
  predicate TcpStop(s: string, j: nat) {
    j < |s| && s[j] == '\n' && (At(s, j + 1, "===") || At(s, j + 1, "UDP"))
  }

  /** `(?=\n={3,}|$)` without the end of input: where the UDP section stops. */
  predicate UdpStop(s: string, j: nat) {
    j < |s| && s[j] == '\n' && At(s, j + 1, "===")
  }

  function FirstTcpStop(s: string, j: nat): (r: Option<nat>)
    ensures r.Some? ==> j <= r.value && TcpStop(s, r.value)
    ensures r.Some? ==> forall q :: j <= q < r.value ==> !TcpStop(s, q)
    ensures r.None? ==> forall q :: j <= q ==> !TcpStop(s, q)
    decreases |s| - j
  {
    if j >= |s| then None
    else if TcpStop(s, j) then Some(j)
    else FirstTcpStop(s, j + 1)
  }

  /** The UDP section stops at the first `\n===` or at the end of the text. */
  function FirstUdpStop(s: string, j: nat): (r: nat)
    requires j <= |s|
    ensures j <= r <= |s|
    ensures r < |s| ==> UdpStop(s, r)
    ensures forall q :: j <= q < r ==> !UdpStop(s, q)
    decreases |s| - j
  {
    if j >= |s| || UdpStop(s, j) then j else FirstUdpStop(s, j + 1)
  }

  /** The capture of `/TCP\s+([\s\S]*?)(?=\n={3,}|\nUDP)/` on `s`, when it has
      one with digits in it. The match begins at the first `TCP` followed by
      white space; `\s+` takes the whole white-space run and the lazy group
      ends at the first stop after it. If no stop follows, the only other
      matches the engine can find (a shorter `\s+`, or a later `TCP`) capture
      the empty string, which yields no ports either; `None` stands for both. */
  function TcpSection(s: string): Option<string> {
    match FirstHeader(s, "TCP", 0)
    case None => None
    case Some(i) =>
      var k := SpaceRunEnd(s, i + 3);
      match FirstTcpStop(s, k)
      case None => None
      case Some(j) => Some(s[k..j])
  }

  /** The capture of `/UDP\s+([\s\S]*?)(?=\n={3,}|$)/`: from the white space
      after the first `UDP` header to the first `\n===` or the end of text. */
  function UdpSection(s: string): Option<string> {
    match FirstHeader(s, "UDP", 0)
    case None => None
    case Some(i) =>
      var k := SpaceRunEnd(s, i + 3);
      Some(s[k..FirstUdpStop(s, k)])
  }

  function SectionPorts(section: Option<string>): seq<nat> {
    match section
    case None => []
    case Some(t) => Values(DigitRuns(t))
  }

  datatype PortLists = PortLists(tcp: seq<nat>, udp: seq<nat>)

  /** `_parsePortOutput`: both lists are always present; a list is empty when
      its section is missing. */
  function ParsePortOutput(output: string): (r: PortLists)
    ensures FirstHeader(StripAnsi(output), "TCP", 0).None? ==> r.tcp == []
    ensures FirstHeader(StripAnsi(output), "UDP", 0).None? ==> r.udp == []
    ensures NoDigit(StripAnsi(output)) ==> r == PortLists([], [])
  {
    var s := StripAnsi(output);
    NoDigitSections(s);
    PortLists(SectionPorts(TcpSection(s)), SectionPorts(UdpSection(s)))
  }

  lemma NoDigitSections(s: string)
    ensures NoDigit(s) ==> SectionPorts(TcpSection(s)) == [] && SectionPorts(UdpSection(s)) == []
  {
    if !NoDigit(s) {
      return;
    }
    match TcpSection(s) {
      case None =>
      case Some(t) =>
        NoDigitInfix(s, t);
        NoDigitRuns(t);
    }
    match UdpSection(s) {
      case None =>
      case Some(t) =>
        NoDigitInfix(s, t);
        NoDigitRuns(t);
    }
  }

  lemma NoDigitInfix(s: string, t: string)
    requires NoDigit(s)
    requires exists a: nat, b: nat | a <= b <= |s| :: t == s[a..b]
    ensures NoDigit(t)
  {
    var a: nat, b: nat :| a <= b <= |s| && t == s[a..b];
    forall i | 0 <= i < |t| ensures !IsDigit(t[i]) {
      assert t[i] == s[a + i];
    }
  }

  lemma NoDigitRuns(t: string)
    requires NoDigit(t)
    ensures DigitRuns(t) == []
  {
    DigitRunsSkip(t, "");
    assert t + "" == t;
  }

  // ---------------------------------------------------------------------------
  // round trip: a report rendered from two port lists parses back to them

  /** Each number on a line of its own, each line introduced by a line break. */
  function NumberLines(xs: seq<nat>): string {
    if |xs| == 0 then "" else "\n" + NatToString(xs[0]) + NumberLines(xs[1..])
  }

  /** A report in the shape the parser expects: a `TCP` header, its ports,
      a `===` rule, a `UDP` header, its ports and a closing rule. */
  function RenderPortReport(ports: PortLists): string {
    SectionText("TCP", ports.tcp) + ("\n" + SectionText("UDP", ports.udp))
  }

  /** `<tag> ports:`, the number lines and the closing `===` rule. */
  function SectionText(tag: string, xs: seq<nat>): (t: string)
    ensures |t| == |tag| + 11 + |NumberLines(xs)|
  {
    tag + " " + ("ports:" + NumberLines(xs) + "\n===")
  }

  /** The decimal spelling of every number, in order. */
  function Printed(xs: seq<nat>): (runs: seq<string>)
    ensures |runs| == |xs|
    ensures forall k :: 0 <= k < |runs| ==> IsDigitRun(runs[k])
  {
    if |xs| == 0 then [] else [NatToString(xs[0])] + Printed(xs[1..])
  }

  /** Inside the number lines every line break is followed by a digit, and
      nothing but digits and line breaks occurs. */
  predicate LinesShape(t: string) {
    && (forall i :: 0 <= i < |t| ==> IsDigit(t[i]) || t[i] == '\n')
    && (forall i :: 0 <= i < |t| && t[i] == '\n' ==> i + 1 < |t| && IsDigit(t[i + 1]))
  }

  lemma {:induction false} NumberLinesShape(xs: seq<nat>)
    ensures LinesShape(NumberLines(xs))
    ensures |xs| > 0 ==> |NumberLines(xs)| > 0 && NumberLines(xs)[0] == '\n'
  {
    if |xs| > 0 {
      NumberLinesShape(xs[1..]);
      var d := NatToString(xs[0]);
      var rest := NumberLines(xs[1..]);
      var t := NumberLines(xs);
      assert t == "\n" + d + rest;
      forall i | 0 <= i < |t| && t[i] == '\n'
        ensures i + 1 < |t| && IsDigit(t[i + 1])
      {
        if i == 0 {
          assert t[1] == d[0];
        } else {
          assert i > |d|;
          assert t[i] == rest[i - 1 - |d|];
          assert t[i + 1] == rest[i - |d|];
        }
      }
    }
  }

  lemma {:induction false} NumberLinesRuns(xs: seq<nat>)
    ensures DigitRuns(NumberLines(xs)) == Printed(xs)
  {
    if |xs| > 0 {
      var d := NatToString(xs[0]);
      var rest := NumberLines(xs[1..]);
      NumberLinesShape(xs[1..]);
      NumberLinesRuns(xs[1..]);
      assert NumberLines(xs) == "\n" + (d + rest);
      DigitRunsSkip("\n", d + rest);
      DigitRunsLead(d, rest);
    }
  }

  lemma {:induction false} ValuesOfPrinted(xs: seq<nat>)
    ensures Values(Printed(xs)) == xs
  {
    if |xs| > 0 {
      ValuesOfPrinted(xs[1..]);
      NatToStringRoundTrip(xs[0]);
      assert Printed(xs)[1..] == Printed(xs[1..]);
    }
  }

  /** The ports of a rendered section are the numbers it was rendered from. */
  lemma SectionValues(xs: seq<nat>)
    ensures SectionPorts(Some("ports:" + NumberLines(xs))) == xs
  {
    var t := "ports:" + NumberLines(xs);
    LabelHasNoDigit();
    DigitRunsSkip("ports:", NumberLines(xs));
    NumberLinesRuns(xs);
    assert DigitRuns(t) == Printed(xs);
    ValuesOfPrinted(xs);
  }

  lemma LabelHasNoDigit()
    ensures NoDigit("ports:")
  {
  }

  /** Every line break is followed by a digit. */
  predicate BreaksBeforeDigits(t: string) {
    forall i :: 0 <= i < |t| && t[i] == '\n' ==> i + 1 < |t| && IsDigit(t[i + 1])
  }

  lemma BreaksInSection(xs: seq<nat>)
    ensures BreaksBeforeDigits("ports:" + NumberLines(xs))
    ensures Lacks(NumberLines(xs), ESC) && Lacks(NumberLines(xs), 'U')
  {
    var body := NumberLines(xs);
    var t := "ports:" + body;
    NumberLinesShape(xs);
    forall i | 0 <= i < |t| && t[i] == '\n' ensures i + 1 < |t| && IsDigit(t[i + 1]) {
      assert t[i] == body[i - 6];
      assert t[i + 1] == body[i - 5];
    }
  }

  /** Positions `lo..hi` hold no section stop: every line break there is
      followed by a digit. */
  lemma NoStopsIn(s: string, lo: nat, hi: nat)
    requires hi <= |s|
    requires forall q :: lo <= q < hi && s[q] == '\n' ==> q + 1 < |s| && IsDigit(s[q + 1])
    ensures forall q :: lo <= q < hi ==> !TcpStop(s, q) && !UdpStop(s, q)
  {
    forall q | lo <= q < hi && s[q] == '\n' && q + 4 <= |s|
      ensures !At(s, q + 1, "===") && !At(s, q + 1, "UDP")
    {
      assert s[q + 1] == s[q + 1..q + 4][0];
    }
  }

  /** A section body with no stop inside it, followed by a `\n===` rule:
      both kinds of section end right at the rule. */
  lemma StopsAfter(s: string, k: nat, t: string)
    requires k + |t| + 4 <= |s|
    requires s[k..k + |t| + 4] == t + "\n==="
    requires BreaksBeforeDigits(t)
    ensures FirstTcpStop(s, k) == Some(k + |t|)
    ensures FirstUdpStop(s, k) == k + |t|
    ensures s[k..k + |t|] == t
  {
    var w := t + "\n===";
    var e := k + |t|;
    forall q | k <= q < e && s[q] == '\n' ensures q + 1 < |s| && IsDigit(s[q + 1]) {
      assert s[q] == w[q - k] == t[q - k];
      assert s[q + 1] == w[q - k + 1] == t[q - k + 1];
    }
    NoStopsIn(s, k, e);
    assert s[e..e + 4] == w[|t|..] == "\n===";
    assert s[e + 1..e + 4] == "===";
    assert TcpStop(s, e) && UdpStop(s, e);
    assert s[k..e] == w[..|t|];
  }

  /** The section of `tag` sitting at offset `x` of `s`: header, `" ports:"`,
      number lines, then a `\n===` rule. */
  lemma SectionAt(s: string, x: nat, tag: string, xs: seq<nat>)
    requires |tag| == 3
    requires x + 14 + |NumberLines(xs)| <= |s|
    requires s[x..x + 14 + |NumberLines(xs)|] == tag + " " + ("ports:" + NumberLines(xs) + "\n===")
    requires forall q :: 0 <= q < x ==> !HeaderAt(s, q, tag)
    ensures FirstHeader(s, tag, 0) == Some(x)
    ensures SpaceRunEnd(s, x + 3) == x + 4
    ensures FirstTcpStop(s, x + 4) == Some(x + 10 + |NumberLines(xs)|)
    ensures FirstUdpStop(s, x + 4) == x + 10 + |NumberLines(xs)|
    ensures s[x + 4..x + 10 + |NumberLines(xs)|] == "ports:" + NumberLines(xs)
  {
    var t := "ports:" + NumberLines(xs);
    BlockParts(s, x, tag, t);
    assert HeaderAt(s, x, tag);
    assert SpaceRunEnd(s, x + 4) == x + 4;
    BreaksInSection(xs);
    StopsAfter(s, x + 4, t);
  }

  /** Where the parts of a section block sit in `s`. */
  lemma BlockParts(s: string, x: nat, tag: string, t: string)
    requires |tag| == 3 && |t| > 0 && t[0] == 'p'
    requires x + |t| + 8 <= |s| && s[x..x + |t| + 8] == tag + " " + (t + "\n===")
    ensures s[x..x + 3] == tag && s[x + 3] == ' ' && s[x + 4] == 'p'
    ensures s[x + 4..x + |t| + 8] == t + "\n==="
  {
    var block := tag + " " + (t + "\n===");
    assert s[x..x + 3] == block[..3] == tag;
    assert s[x + 3] == block[3] == ' ';
    assert s[x + 4] == block[4] == 'p';
    assert s[x + 4..x + |t| + 8] == block[4..] == t + "\n===";
  }

  lemma LacksConcat(a: string, b: string, c: char)
    requires Lacks(a, c) && Lacks(b, c)
    ensures Lacks(a + b, c)
  {
    forall i | 0 <= i < |a + b| ensures (a + b)[i] != c {
      if i >= |a| {
        assert (a + b)[i] == b[i - |a|];
      }
    }
  }

  lemma SectionLacks(tag: string, xs: seq<nat>, c: char)
    requires c != '\n' && !IsDigit(c) && Lacks(tag + " ports:\n===", c)
    ensures Lacks(SectionText(tag, xs), c)
  {
    var nt := NumberLines(xs);
    var t := SectionText(tag, xs);
    NumberLinesShape(xs);
    forall i | 0 <= i < |t| ensures t[i] != c {
      if i < |tag| + 7 {
        assert t[i] == (tag + " ports:\n===")[i];
      } else if i < |tag| + 7 + |nt| {
        assert t[i] == nt[i - |tag| - 7];
      } else {
        assert t[i] == (tag + " ports:\n===")[i - |nt|];
      }
    }
  }

  lemma RenderedPlain(ports: PortLists)
    ensures NoEsc(RenderPortReport(ports))
  {
    SectionLacks("TCP", ports.tcp, ESC);
    SectionLacks("UDP", ports.udp, ESC);
    LacksConcat("\n", SectionText("UDP", ports.udp), ESC);
    LacksConcat(SectionText("TCP", ports.tcp), "\n" + SectionText("UDP", ports.udp), ESC);
  }

  lemma RenderedTcp(ports: PortLists)
    ensures TcpSection(RenderPortReport(ports)) == Some("ports:" + NumberLines(ports.tcp))
  {
    var a := SectionText("TCP", ports.tcp);
    var s := RenderPortReport(ports);
    assert s[0..|a|] == a;
    SectionAt(s, 0, "TCP", ports.tcp);
  }

  /** With no `U` among the first `x` characters no `UDP` header starts there. */
  lemma NoUdpBefore(s: string, x: nat)
    requires x <= |s|
    requires Lacks(s[..x], 'U')
    ensures forall q :: 0 <= q < x ==> !HeaderAt(s, q, "UDP")
  {
    forall q | 0 <= q < x && q + 3 <= |s| ensures !At(s, q, "UDP") {
      assert s[q] == s[..x][q];
      assert s[q] == s[q..q + 3][0];
    }
  }

  lemma RenderedUdp(ports: PortLists)
    ensures UdpSection(RenderPortReport(ports)) == Some("ports:" + NumberLines(ports.udp))
  {
    var s := RenderPortReport(ports);
    var x := |SectionText("TCP", ports.tcp)| + 1;
    RenderedLayout(ports);
    NoUdpBefore(s, x);
    SectionAt(s, x, "UDP", ports.udp);
  }

  /** The UDP block follows the TCP block and a line break, and no `U` comes
      before it. */
  lemma RenderedLayout(ports: PortLists)
    ensures var a := SectionText("TCP", ports.tcp);
      var b := SectionText("UDP", ports.udp);
      var s := RenderPortReport(ports);
      && |s| == |a| + 1 + |b|
      && s[|a| + 1..|a| + 1 + |b|] == b
      && Lacks(s[..|a| + 1], 'U')
  {
    var a := SectionText("TCP", ports.tcp);
    var b := SectionText("UDP", ports.udp);
    var s := RenderPortReport(ports);
    assert s == (a + "\n") + b;
    assert s[..|a| + 1] == a + "\n";
    SectionLacks("TCP", ports.tcp, 'U');
    LacksConcat(a, "\n", 'U');
  }

  /** Parsing a rendered report gives back exactly the lists it was rendered
      from: order and duplicates preserved. */
  lemma ParseRenderRoundTrip(ports: PortLists)
    ensures ParsePortOutput(RenderPortReport(ports)) == ports
  {
    var s := RenderPortReport(ports);
    RenderedPlain(ports);
    StripPlain(s);
    RenderedTcp(ports);
    RenderedUdp(ports);
    SectionValues(ports.tcp);
    SectionValues(ports.udp);
  }

  /** A header needs white space right after its tag. In a text whose only
      occurrence of the tag's first letter is at `p`, not followed by white
      space, there is no header at all. */
  lemma NoHeaderAnywhere(s: string, tag: string, p: nat)
    requires |tag| > 0 && p < |s|
    requires Lacks(s[..p], tag[0]) && Lacks(s[p + 1..], tag[0])
    requires !HeaderAt(s, p, tag)
    ensures FirstHeader(s, tag, 0).None?
  {
    forall q | 0 <= q < |s| && q != p ensures s[q] != tag[0] {
      if q < p {
        assert s[q] == s[..p][q];
      } else {
        assert s[q] == s[p + 1..][q - p - 1];
      }
    }
    forall q | 0 <= q && q + |tag| <= |s| && q != p ensures !At(s, q, tag) {
      assert s[q..q + |tag|][0] == s[q];
    }
  }

  /** Sample output where the headers run straight into `端口:` (no white
      space after `TCP` or `UDP`). */
  const SAMPLE_HEAD: string := "TCP端口:\n80\n443\n====\n"
  const SAMPLE_TAIL: string := "UDP端口:\n53\n===="

  lemma SampleHeadFacts()
    ensures Lacks(SAMPLE_HEAD, ESC) && Lacks(SAMPLE_HEAD[1..], 'T') && Lacks(SAMPLE_HEAD, 'U')
    ensures |SAMPLE_HEAD| == 19 && SAMPLE_HEAD[3] == '端'
  {
  }

  lemma SampleTailFacts()
    ensures Lacks(SAMPLE_TAIL, ESC) && Lacks(SAMPLE_TAIL, 'T') && Lacks(SAMPLE_TAIL[1..], 'U')
    ensures SAMPLE_TAIL[3] == '端'
  {
  }

  /** The sample carries no colour codes. */
  lemma SamplePlain()
    ensures StripAnsi(SAMPLE_HEAD + SAMPLE_TAIL) == SAMPLE_HEAD + SAMPLE_TAIL
  {
    SampleHeadFacts();
    SampleTailFacts();
    LacksConcat(SAMPLE_HEAD, SAMPLE_TAIL, ESC);
    StripPlain(SAMPLE_HEAD + SAMPLE_TAIL);
  }

  /** The only `T` of the sample starts `TCP端口`, which is no header. */
  lemma SampleHasNoTcpHeader()
    ensures FirstHeader(SAMPLE_HEAD + SAMPLE_TAIL, "TCP", 0).None?
  {
    var a, b := SAMPLE_HEAD, SAMPLE_TAIL;
    var s := a + b;
    SampleHeadFacts();
    SampleTailFacts();
    assert s[..0] == "" && s[1..] == a[1..] + b;
    LacksConcat(a[1..], b, 'T');
    assert s[3] == a[3];
    NoHeaderAnywhere(s, "TCP", 0);
  }

  /** The only `U` of the sample starts `UDP端口`, which is no header. */
  lemma SampleHasNoUdpHeader()
    ensures FirstHeader(SAMPLE_HEAD + SAMPLE_TAIL, "UDP", 0).None?
  {
    var a, b := SAMPLE_HEAD, SAMPLE_TAIL;
    var s := a + b;
    SampleHeadFacts();
    SampleTailFacts();
    assert s[..19] == a && s[20..] == b[1..];
    assert s[22] == b[3];
    NoHeaderAnywhere(s, "UDP", 19);
  }

  /** The expressions find no section in the sample, so both lists come back
      empty although the text lists ports. */
  lemma HeaderWithoutSpace()
    ensures ParsePortOutput(SAMPLE_HEAD + SAMPLE_TAIL) == PortLists([], [])
  {
    SamplePlain();
    SampleHasNoTcpHeader();
    SampleHasNoUdpHeader();
  }

  // ---------------------------------------------------------------------------
  // IPv4 addresses: /\d+\.\d+\.\d+\.\d+/g

  /** End of the digit run starting at `i` (`i` itself when there is none). */
  function RunEnd(s: string, i: nat): (e: nat)
    requires i <= |s|
    ensures i <= e <= |s|
    decreases |s| - i
  {
    if i < |s| && IsDigit(s[i]) then RunEnd(s, i + 1) else i
  }

  /** End of the match of `n` dot-separated digit runs starting at `i`.
      Each inner `\d+` must be maximal (a shorter one would leave a digit
      where `.` is needed) and the last is greedy, so there is at most one. */
  function DottedFrom(s: string, i: nat, n: nat): (r: Option<nat>)
    requires i <= |s| && n >= 1
    ensures r.Some? ==> i < r.value <= |s|
    decreases n
  {
    var e := RunEnd(s, i);
    if e == i then None
    else if n == 1 then Some(e)
    else if e < |s| && s[e] == '.' then DottedFrom(s, e + 1, n - 1)
    else None
  }

  /** `t` is one whole match of the address expression. */
  predicate IsDottedQuad(t: string) {
    DottedFrom(t, 0, 4) == Some(|t|)
  }

  /** Every token is a whole match. */
  predicate AllQuads(ts: seq<string>) {
    forall k :: 0 <= k < |ts| ==> IsDottedQuad(ts[k])
  }

  /** A digit run read inside the window `lo..hi` of `s` ends where it ends
      in `s`, as long as it ends inside the window. */
  lemma {:induction false} RunEndWindow(s: string, lo: nat, hi: nat, i: nat)
    requires lo <= i <= hi <= |s| && RunEnd(s, i) <= hi
    ensures RunEnd(s[lo..hi], i - lo) == RunEnd(s, i) - lo
    decreases |s| - i
  {
    if i < hi {
      assert s[lo..hi][i - lo] == s[i];
      if IsDigit(s[i]) {
        RunEndWindow(s, lo, hi, i + 1);
      }
    }
  }

  /** A match does not look past its own end or before its start: read in a
      window that ends where it ends, it matches the same way. */
  lemma {:induction false} DottedWindow(s: string, lo: nat, i: nat, n: nat, e: nat)
    requires lo <= i <= |s| && n >= 1 && DottedFrom(s, i, n) == Some(e)
    ensures DottedFrom(s[lo..e], i - lo, n) == Some(e - lo)
    decreases n
  {
    var d := RunEnd(s, i);
    RunEndWindow(s, lo, e, i);
    if n > 1 {
      assert s[lo..e][d - lo] == s[d];
      DottedWindow(s, lo, d + 1, n - 1, e);
    }
  }

  /** `text.match(/\d+\.\d+\.\d+\.\d+/g) || []` from position `i` on: the
      expression is tried at each position; a match is kept and the scan
      resumes after it, otherwise the scan moves on by one character. */
  function IpScanFrom(s: string, i: nat): (tokens: seq<string>)
    requires i <= |s|
    decreases |s| - i
  {
    if i == |s| then []
    else match DottedFrom(s, i, 4)
      case Some(e) => [s[i..e]] + IpScanFrom(s, e)
      case None => IpScanFrom(s, i + 1)
  }

  /** Every token the scan returns is one whole match. */
  lemma {:induction false} ScanTokensAreQuads(s: string, i: nat)
    requires i <= |s|
    ensures AllQuads(IpScanFrom(s, i))
    decreases |s| - i
  {
    if i < |s| {
      match DottedFrom(s, i, 4)
      case Some(e) =>
        ScanTokensAreQuads(s, e);
        QuadTaken(s, i, e);
      case None =>
        ScanTokensAreQuads(s, i + 1);
        ScanSkips(s, i);
    }
  }

  lemma QuadTaken(s: string, i: nat, e: nat)
    requires i < |s| && DottedFrom(s, i, 4) == Some(e)
    requires AllQuads(IpScanFrom(s, e))
    ensures AllQuads(IpScanFrom(s, i))
  {
    DottedWindow(s, i, i, 4, e);
    assert IsDottedQuad(s[i..e]);
    ScanTakesMatch(s, i, e);
    QuadsCons(s[i..e], IpScanFrom(s, e));
  }

  /** No match at `i`: the scan moves on by one character. */
  lemma ScanSkips(s: string, i: nat)
    requires i < |s| && DottedFrom(s, i, 4).None?
    ensures IpScanFrom(s, i) == IpScanFrom(s, i + 1)
  {
  }

  lemma QuadsCons(x: string, rest: seq<string>)
    requires IsDottedQuad(x) && AllQuads(rest)
    ensures AllQuads([x] + rest)
  {
    forall k | 0 <= k < |[x] + rest|
      ensures IsDottedQuad(([x] + rest)[k])
    {
      if k > 0 {
        assert ([x] + rest)[k] == rest[k - 1];
      }
    }
  }

  /** `_parseIPOutput`: every dotted quad in the uncoloured text, in order,
      as text. Octets are not range-checked. */
  function ParseIPOutput(output: string): (ips: seq<string>)
    ensures forall k :: 0 <= k < |ips| ==> IsDottedQuad(ips[k])
    ensures NoDigit(StripAnsi(output)) ==> ips == []
  {
    ScanTokensAreQuads(StripAnsi(output), 0);
    NoDigitScan(StripAnsi(output), 0);
    IpScanFrom(StripAnsi(output), 0)
  }

  lemma {:induction false} NoDigitScan(s: string, i: nat)
    requires i <= |s|
    ensures NoDigit(s) ==> IpScanFrom(s, i) == []
    decreases |s| - i
  {
    if i < |s| && NoDigit(s) {
      assert !IsDigit(s[i]);
      NoDigitScan(s, i + 1);
    }
  }

  /** An address as the decimal spellings of its four octets. Any digit
      runs will do: the scanner does not check the 0..255 range. */
  predicate ValidQuad(runs: seq<string>) {
    |runs| == 4 && forall k :: 0 <= k < 4 ==> IsDigitRun(runs[k])
  }

  /** The runs joined by dots. */
  function DotJoin(runs: seq<string>): string
    requires |runs| >= 1
  {
    if |runs| == 1 then runs[0] else runs[0] + "." + DotJoin(runs[1..])
  }

  predicate AllValid(qs: seq<seq<string>>) {
    forall k :: 0 <= k < |qs| ==> ValidQuad(qs[k])
  }

  /** One address per line. */
  function RenderIpLines(qs: seq<seq<string>>): string
    requires AllValid(qs)
  {
    if |qs| == 0 then "" else DotJoin(qs[0]) + "\n" + RenderIpLines(qs[1..])
  }

  function RenderedQuads(qs: seq<seq<string>>): (r: seq<string>)
    requires AllValid(qs)
    ensures |r| == |qs|
  {
    if |qs| == 0 then [] else [DotJoin(qs[0])] + RenderedQuads(qs[1..])
  }

  lemma {:induction false} RunEndOfRun(p: string, d: string, rest: string)
    requires AllDigits(d)
    requires |rest| > 0 ==> !IsDigit(rest[0])
    ensures RunEnd(p + d + rest, |p|) == |p| + |d|
    decreases |d|
  {
    var s := p + d + rest;
    if |d| > 0 {
      assert s[|p|] == d[0];
      assert s == (p + [d[0]]) + d[1..] + rest;
      RunEndOfRun(p + [d[0]], d[1..], rest);
    } else {
      assert s == p + rest;
      if |rest| > 0 {
        assert s[|p|] == rest[0];
      }
    }
  }

  lemma {:induction false} DotJoinMatches(p: string, runs: seq<string>, rest: string)
    requires |runs| >= 1
    requires forall k :: 0 <= k < |runs| ==> IsDigitRun(runs[k])
    requires |rest| > 0 ==> !IsDigit(rest[0])
    ensures DottedFrom(p + DotJoin(runs) + rest, |p|, |runs|) == Some(|p| + |DotJoin(runs)|)
    decreases |runs|
  {
    var d := runs[0];
    assert IsDigitRun(d);
    if |runs| == 1 {
      RunEndOfRun(p, d, rest);
    } else {
      var tail := DotJoin(runs[1..]);
      var s := p + DotJoin(runs) + rest;
      assert s == p + d + ("." + tail + rest);
      RunEndOfRun(p, d, "." + tail + rest);
      assert s[|p| + |d|] == '.';
      assert s == (p + d + ".") + tail + rest;
      DotJoinMatches(p + d + ".", runs[1..], rest);
    }
  }

  /** A rendered address matches the expression in full wherever it sits,
      provided no digit follows it. */
  lemma QuadMatches(p: string, q: seq<string>, rest: string)
    requires ValidQuad(q)
    requires |rest| > 0 ==> !IsDigit(rest[0])
    ensures DottedFrom(p + DotJoin(q) + rest, |p|, 4) == Some(|p| + |DotJoin(q)|)
  {
    DotJoinMatches(p, q, rest);
  }

  /** A match at `i` is kept and the scan resumes after it. */
  lemma ScanTakesMatch(s: string, i: nat, e: nat)
    requires i < |s| && DottedFrom(s, i, 4) == Some(e)
    ensures IpScanFrom(s, i) == [s[i..e]] + IpScanFrom(s, e)
  {
  }

  /** A line break starts no match; the scan moves past it. */
  lemma ScanSkipsBreak(s: string, e: nat)
    requires e < |s| && s[e] == '\n'
    ensures IpScanFrom(s, e) == IpScanFrom(s, e + 1)
  {
    assert RunEnd(s, e) == e;
  }

  /** A match at `k` ending at a line break: the scan keeps it and resumes
      after the break. */
  lemma ScanOneLine(s: string, k: nat, e: nat)
    requires k < e < |s| && DottedFrom(s, k, 4) == Some(e) && s[e] == '\n'
    ensures IpScanFrom(s, k) == [s[k..e]] + IpScanFrom(s, e + 1)
  {
    ScanTakesMatch(s, k, e);
    ScanSkipsBreak(s, e);
  }

  /** From index `k` on, `t` holds the tokens `toks`, each closed by a line
      break. */
  predicate TokenLines(t: string, k: nat, toks: seq<string>)
    requires k <= |t|
    decreases |toks|
  {
    if |toks| == 0 then k == |t|
    else
      var e := k + |toks[0]|;
      e < |t| && t[k..e] == toks[0] && t[e] == '\n' && TokenLines(t, e + 1, toks[1..])
  }

  /** A digit run read inside a window of `s` that stops at a non-digit ends
      where it ends in `s`. */
  lemma {:induction false} RunEndExtend(s: string, k: nat, e: nat, i: nat)
    requires k <= i <= e < |s| && !IsDigit(s[e])
    ensures RunEnd(s[k..e], i - k) == RunEnd(s, i) - k
    decreases e - i
  {
    if i < e {
      assert s[k..e][i - k] == s[i];
      if IsDigit(s[i]) {
        RunEndExtend(s, k, e, i + 1);
      }
    }
  }

  /** A match inside the window `k..e` is a match in `s` when no digit
      follows the window: the converse of `DottedWindow`. */
  lemma {:induction false} DottedExtend(s: string, k: nat, e: nat, i: nat, n: nat)
    requires k <= i <= e < |s| && n >= 1 && !IsDigit(s[e])
    requires DottedFrom(s[k..e], i - k, n) == Some(e - k)
    ensures DottedFrom(s, i, n) == Some(e)
    decreases n
  {
    RunEndExtend(s, k, e, i);
    if n > 1 {
      var d := RunEnd(s, i);
      assert s[k..e][d - k] == s[d];
      DottedExtend(s, k, e, d + 1, n - 1);
    }
  }

  /** A rendered address is one whole match. */
  lemma QuadIsDotted(q: seq<string>)
    requires ValidQuad(q)
    ensures IsDottedQuad(DotJoin(q))
  {
    QuadMatches("", q, "");
    Bare(DotJoin(q));
  }

  lemma Bare(x: string)
    ensures "" + x + "" == x
  {
  }

  lemma {:induction false} RenderedAreDotted(qs: seq<seq<string>>)
    requires AllValid(qs)
    ensures AllDotted(RenderedQuads(qs))
    decreases |qs|
  {
    if |qs| > 0 {
      QuadIsDotted(qs[0]);
      RenderedAreDotted(qs[1..]);
      assert RenderedQuads(qs)[1..] == RenderedQuads(qs[1..]);
    }
  }

  /** One rendered line after any prefix `p`. */
  lemma LineAfter(t: string, p: string, r: string, rest: string)
    requires t == p + (r + "\n" + rest)
    ensures |p| + |r| < |t| && t[|p|..|p| + |r|] == r && t[|p| + |r|] == '\n'
    ensures t == (p + r + "\n") + rest
  {
    assert t[|p|..|p| + |r|] == (r + "\n" + rest)[..|r|];
  }

  lemma TokenCons(t: string, k: nat, tok: string, rest: seq<string>)
    requires k + |tok| < |t| && t[k..k + |tok|] == tok && t[k + |tok|] == '\n'
    requires TokenLines(t, k + |tok| + 1, rest)
    ensures TokenLines(t, k, [tok] + rest)
  {
    assert ([tok] + rest)[1..] == rest;
  }

  /** The rendered text, after any prefix, has that shape. */
  lemma {:induction false} RenderedLines(t: string, p: string, qs: seq<seq<string>>)
    requires AllValid(qs) && t == p + RenderIpLines(qs)
    ensures TokenLines(t, |p|, RenderedQuads(qs))
    decreases |qs|
  {
    if |qs| == 0 {
      assert t == p;
    } else {
      var r := DotJoin(qs[0]);
      var rest := RenderIpLines(qs[1..]);
      LineAfter(t, p, r, rest);
      RenderedLines(t, p + r + "\n", qs[1..]);
      TokenCons(t, |p|, r, RenderedQuads(qs[1..]));
    }
  }

  lemma HeadTail(toks: seq<string>)
    requires |toks| > 0
    ensures toks == [toks[0]] + toks[1..]
  {
  }

  /** Every token is one whole match. */
  predicate AllDotted(toks: seq<string>)
    decreases |toks|
  {
    |toks| == 0 || (IsDottedQuad(toks[0]) && AllDotted(toks[1..]))
  }

  /** From index `k` on, `t` holds the tokens `toks`, each one matched by
      the expression and closed by a line break. */
  predicate LinesFrom(t: string, k: nat, toks: seq<string>)
    requires k <= |t|
    decreases |toks|
  {
    if |toks| == 0 then k == |t|
    else
      var e := k + |toks[0]|;
      e < |t| && DottedFrom(t, k, 4) == Some(e) && t[e] == '\n' && t[k..e] == toks[0]
      && LinesFrom(t, e + 1, toks[1..])
  }

  /** A whole match closed by a line break is matched in place. */
  lemma LineMatched(t: string, k: nat, tok: string)
    requires k + |tok| < |t| && t[k..k + |tok|] == tok && t[k + |tok|] == '\n'
    requires IsDottedQuad(tok)
    ensures DottedFrom(t, k, 4) == Some(k + |tok|)
  {
    DottedExtend(t, k, k + |tok|, k, 4);
  }

  lemma LinesCons(t: string, k: nat, tok: string, rest: seq<string>)
    requires k + |tok| < |t| && DottedFrom(t, k, 4) == Some(k + |tok|) && t[k + |tok|] == '\n'
    requires t[k..k + |tok|] == tok && LinesFrom(t, k + |tok| + 1, rest)
    ensures LinesFrom(t, k, [tok] + rest)
  {
    assert ([tok] + rest)[1..] == rest;
  }

  lemma {:induction false} ShapeMatched(t: string, k: nat, toks: seq<string>)
    requires k <= |t| && TokenLines(t, k, toks) && AllDotted(toks)
    ensures LinesFrom(t, k, toks)
    decreases |toks|
  {
    if |toks| > 0 {
      LineMatched(t, k, toks[0]);
      ShapeMatched(t, k + |toks[0]| + 1, toks[1..]);
      LinesCons(t, k, toks[0], toks[1..]);
      HeadTail(toks);
    }
  }

  /** Text of that shape is scanned back into exactly those tokens. */
  lemma {:induction false} ScanLines(t: string, k: nat, toks: seq<string>)
    requires k <= |t| && LinesFrom(t, k, toks)
    ensures IpScanFrom(t, k) == toks
    decreases |toks|
  {
    if |toks| > 0 {
      var e := k + |toks[0]|;
      ScanOneLine(t, k, e);
      ScanLines(t, e + 1, toks[1..]);
      HeadTail(toks);
    }
  }

  lemma RenderedIpLinesPlain(qs: seq<seq<string>>)
    requires AllValid(qs)
    ensures NoEsc(RenderIpLines(qs))
  {
    if |qs| > 0 {
      RenderedIpLinesPlain(qs[1..]);
      assert ValidQuad(qs[0]);
      DotJoinPlain(qs[0]);
      LacksConcat(DotJoin(qs[0]), "\n", ESC);
      LacksConcat(DotJoin(qs[0]) + "\n", RenderIpLines(qs[1..]), ESC);
    }
  }

  lemma DotJoinPlain(runs: seq<string>)
    requires |runs| >= 1
    requires forall k :: 0 <= k < |runs| ==> IsDigitRun(runs[k])
    ensures Lacks(DotJoin(runs), ESC)
  {
    assert IsDigitRun(runs[0]);
    if |runs| > 1 {
      DotJoinPlain(runs[1..]);
      LacksConcat(runs[0], ".", ESC);
      LacksConcat(runs[0] + ".", DotJoin(runs[1..]), ESC);
    }
  }

  /** A list of addresses printed one per line is read back exactly, in
      order, whatever the octet values. */
  lemma ParseIpRoundTrip(qs: seq<seq<string>>)
    requires AllValid(qs)
    ensures ParseIPOutput(RenderIpLines(qs)) == RenderedQuads(qs)
  {
    RenderedIpLinesPlain(qs);
    StripPlain(RenderIpLines(qs));
    ScanRendered(qs);
  }

  /** The scan reads the rendered lines back. */
  lemma ScanRendered(qs: seq<seq<string>>)
    requires AllValid(qs)
    ensures IpScanFrom(RenderIpLines(qs), 0) == RenderedQuads(qs)
  {
    RenderedLines(RenderIpLines(qs), "", qs);
    RenderedAreDotted(qs);
    ShapeMatched(RenderIpLines(qs), 0, RenderedQuads(qs));
    ScanLines(RenderIpLines(qs), 0, RenderedQuads(qs));
  }

  /** No octet range check: `300.1.1.1` is reported as an address. */
  lemma OctetsUnchecked()
    ensures ParseIPOutput("300.1.1.1\n") == ["300.1.1.1"]
  {
    var q := ["300", "1", "1", "1"];
    assert ValidQuad(q);
    assert DotJoin(q) == "300.1.1.1";
    assert RenderIpLines([q]) == "300.1.1.1\n";
    ParseIpRoundTrip([q]);
  }
}
