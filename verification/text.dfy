/** String helpers with the semantics of the JavaScript built-ins the source
    relies on: the `\s` and `\d` regex classes, `String.prototype.includes`,
    `trim`, `split`, and `parseInt(_, 10)`. */
module Text {
  import opened Maybe

  /** JavaScript `\s`: the WhiteSpace and LineTerminator code points. */
  predicate IsSpace(c: char) {
    || c == '\t' || c == '\n' || c == '\U{B}' || c == '\U{C}' || c == '\r'
    || c == ' ' || c == '\U{A0}' || c == '\U{1680}'
    || ('\U{2000}' <= c <= '\U{200A}')
    || c == '\U{2028}' || c == '\U{2029}' || c == '\U{202F}' || c == '\U{205F}'
    || c == '\U{3000}' || c == '\U{FEFF}'
  }

  /** JavaScript `\d`: ASCII digits only. */
  predicate IsDigit(c: char) {
    '0' <= c <= '9'
  }

  predicate AllDigits(s: string) {
    forall i :: 0 <= i < |s| ==> IsDigit(s[i])
  }

  /** A non-empty run of digits, what `\d+` matches. */
  predicate IsDigitRun(s: string) {
    |s| > 0 && AllDigits(s)
  }

  predicate NoSpace(s: string) {
    forall i :: 0 <= i < |s| ==> !IsSpace(s[i])
  }

  /** `p` occurs in `s` starting at index `i`. */
  predicate At(s: string, i: nat, p: string) {
    i + |p| <= |s| && s[i..i + |p|] == p
  }

  /** `s.includes(sub)`. */
  predicate Contains(s: string, sub: string) {
    exists i: nat | i <= |s| :: At(s, i, sub)
  }

  lemma ContainsAt(s: string, sub: string, i: nat)
    requires At(s, i, sub)
    ensures Contains(s, sub)
  {
  }

  /** A text lacking one of the characters of `sub` does not contain `sub`. */
  lemma MissingCharNotContained(s: string, sub: string, k: nat)
    requires k < |sub|
    requires forall i :: 0 <= i < |s| ==> s[i] != sub[k]
    ensures !Contains(s, sub)
  {
    forall i: nat | i <= |s|
      ensures !At(s, i, sub)
    {
      if i + |sub| <= |s| {
        assert s[i..i + |sub|][k] == s[i + k];
      }
    }
  }

  // ---------------------------------------------------------------------------
  // trim

  function TrimStart(s: string): (r: string)
    ensures |r| <= |s| && r == s[|s| - |r|..]
    ensures |r| > 0 ==> !IsSpace(r[0])
    ensures forall i :: 0 <= i < |s| - |r| ==> IsSpace(s[i])
  {
    if |s| > 0 && IsSpace(s[0]) then TrimStart(s[1..]) else s
  }

  function TrimEnd(s: string): (r: string)
    ensures |r| <= |s| && r == s[..|r|]
    ensures |r| > 0 ==> !IsSpace(r[|r| - 1])
    ensures forall i :: |r| <= i < |s| ==> IsSpace(s[i])
  {
    if |s| > 0 && IsSpace(s[|s| - 1]) then TrimEnd(s[..|s| - 1]) else s
  }

  /** `r` is the infix of `s` at offset `a`, with only white space around it. */
  predicate TrimmedAt(s: string, r: string, a: nat) {
    && a + |r| <= |s|
    && r == s[a..a + |r|]
    && (forall i :: 0 <= i < a ==> IsSpace(s[i]))
    && (forall i :: a + |r| <= i < |s| ==> IsSpace(s[i]))
  }

  /** `s.trim()`: the longest infix of `s` that neither starts nor ends with
      white space; everything cut off on either side is white space. */
  function Trim(s: string): (r: string)
    ensures |r| > 0 ==> !IsSpace(r[0]) && !IsSpace(r[|r| - 1])
    ensures TrimmedAt(s, r, |s| - |TrimStart(s)|)
  {
    TrimEnd(TrimStart(s))
  }

  lemma {:induction false} TrimOfUntrimmed(s: string)
    requires |s| > 0 ==> !IsSpace(s[0]) && !IsSpace(s[|s| - 1])
    ensures Trim(s) == s
  {
  }

  /** Trimming twice is trimming once. */
  lemma TrimIdempotent(s: string)
    ensures Trim(Trim(s)) == Trim(s)
  {
    TrimOfUntrimmed(Trim(s));
  }

  /** A string that is all white space trims to the empty string (a blank line). */
  lemma TrimBlank(s: string)
    requires forall i :: 0 <= i < |s| ==> IsSpace(s[i])
    ensures Trim(s) == ""
  {
  }

  // ---------------------------------------------------------------------------
  // split / join on a single separator character

  /** `s.split(sep)` for a one-character separator: always at least one piece,
      and the pieces never contain the separator. */
  function Split(s: string, sep: char): (parts: seq<string>)
    ensures |parts| >= 1
    ensures forall k, i :: 0 <= k < |parts| && 0 <= i < |parts[k]| ==> parts[k][i] != sep
    decreases |s|
  {
    if |s| == 0 then [""]
    else
      var rest := Split(s[1..], sep);
      if s[0] == sep then [""] + rest
      else [[s[0]] + rest[0]] + rest[1..]
  }

  /** `parts.join(sep)`. */
  function Join(parts: seq<string>, sep: char): string
    requires |parts| >= 1
  {
    if |parts| == 1 then parts[0] else parts[0] + [sep] + Join(parts[1..], sep)
  }

  /** Splitting and joining back on the same separator restores the text. */
  lemma {:induction false} JoinSplit(s: string, sep: char)
    ensures Join(Split(s, sep), sep) == s
    decreases |s|
  {
    if |s| > 0 {
      var rest := Split(s[1..], sep);
      JoinSplit(s[1..], sep);
      if s[0] == sep {
        assert s == [sep] + s[1..];
      } else {
        var parts := Split(s, sep);
        assert parts[1..] == rest[1..];
        if |rest| == 1 {
          assert s == [s[0]] + rest[0];
        } else {
          assert Join(rest, sep) == rest[0] + [sep] + Join(rest[1..], sep);
          assert s == [s[0]] + s[1..];
        }
      }
    }
  }

  predicate Free(s: string, sep: char) {
    forall i :: 0 <= i < |s| ==> s[i] != sep
  }

  lemma {:induction false} SplitFree(s: string, sep: char)
    requires Free(s, sep)
    ensures Split(s, sep) == [s]
    decreases |s|
  {
    if |s| > 0 {
      SplitFree(s[1..], sep);
      assert s == [s[0]] + s[1..];
    }
  }

  lemma {:induction false} SplitAfterPiece(a: string, b: string, sep: char)
    requires Free(a, sep)
    ensures Split(a + [sep] + b, sep) == [a] + Split(b, sep)
    decreases |a|
  {
    var s := a + [sep] + b;
    if |a| == 0 {
      assert s == [sep] + b;
      assert s[1..] == b;
    } else {
      assert s[1..] == a[1..] + [sep] + b;
      SplitAfterPiece(a[1..], b, sep);
      assert [a[0]] + a[1..] == a;
    }
  }

  /** Joining pieces that do not contain the separator and splitting again
      gives the pieces back. */
  lemma {:induction false} SplitJoin(parts: seq<string>, sep: char)
    requires |parts| >= 1
    requires forall k :: 0 <= k < |parts| ==> Free(parts[k], sep)
    ensures Split(Join(parts, sep), sep) == parts
    decreases |parts|
  {
    if |parts| == 1 {
      SplitFree(parts[0], sep);
    } else {
      SplitJoin(parts[1..], sep);
      SplitAfterPiece(parts[0], Join(parts[1..], sep), sep);
      assert [parts[0]] + parts[1..] == parts;
    }
  }

  // ---------------------------------------------------------------------------
  // decimal numbers

  function DigitValue(c: char): nat
    requires IsDigit(c)
  {
    (c as int - '0' as int) as nat
  }

  function DigitChar(d: nat): (c: char)
    requires d < 10
    ensures IsDigit(c) && DigitValue(c) == d
  {
    ('0' as int + d) as char
  }

  /** The number a digit string denotes in base 10 (what `parseInt` returns
      for a run matched by `\d+`). */
  function DigitsValue(s: string): nat
    requires AllDigits(s)
  {
    if |s| == 0 then 0 else 10 * DigitsValue(s[..|s| - 1]) + DigitValue(s[|s| - 1])
  }

  /** The canonical decimal spelling of `n`, as `String(n)` prints it. */
  function NatToString(n: nat): (s: string)
    ensures IsDigitRun(s)
    ensures |s| > 1 ==> s[0] != '0'
  {
    if n < 10 then [DigitChar(n)] else NatToString(n / 10) + [DigitChar(n % 10)]
  }

  /** Printing a number and reading it back gives the number. */
  lemma {:induction false} NatToStringRoundTrip(n: nat)
    ensures DigitsValue(NatToString(n)) == n
  {
    if n >= 10 {
      var s := NatToString(n);
      assert s[..|s| - 1] == NatToString(n / 10);
      NatToStringRoundTrip(n / 10);
    }
  }

  /** Length of the maximal digit prefix of `s`. */
  function DigitPrefixLen(s: string): (n: nat)
    ensures n <= |s| && AllDigits(s[..n])
    ensures n < |s| ==> !IsDigit(s[n])
  {
    if |s| > 0 && IsDigit(s[0]) then 1 + DigitPrefixLen(s[1..]) else 0
  }

  lemma {:induction false} DigitPrefixOfRun(d: string, rest: string)
    requires AllDigits(d)
    requires |rest| > 0 ==> !IsDigit(rest[0])
    ensures DigitPrefixLen(d + rest) == |d|
    decreases |d|
  {
    if |d| > 0 {
      assert (d + rest)[1..] == d[1..] + rest;
      DigitPrefixOfRun(d[1..], rest);
    }
  }

  /** `parseInt(s, 10)`: leading white space is skipped, one optional sign is
      read, then the longest digit prefix; `None` stands for `NaN`. */
  function ParseInt(s: string): (r: Option<int>)
    ensures r.None? <==> DigitPrefixLen(SignStripped(TrimStart(s))) == 0
  {
    var t := SignStripped(TrimStart(s));
    var n := DigitPrefixLen(t);
    if n == 0 then None
    else
      var v: int := DigitsValue(t[..n]);
      var u := TrimStart(s);
      var signed: int := if |u| > 0 && u[0] == '-' then -v else v;
      Some(signed)
  }

  function SignStripped(u: string): string {
    if |u| > 0 && (u[0] == '+' || u[0] == '-') then u[1..] else u
  }

  predicate AllSpace(s: string) {
    forall i :: 0 <= i < |s| ==> IsSpace(s[i])
  }

  lemma {:induction false} TrimStartSkips(w: string, x: string)
    requires AllSpace(w) && (|x| > 0 ==> !IsSpace(x[0]))
    ensures TrimStart(w + x) == x
    decreases |w|
  {
    if |w| > 0 {
      assert (w + x)[1..] == w[1..] + x;
      TrimStartSkips(w[1..], x);
    } else {
      assert w + x == x;
    }
  }

  /** What `parseInt` reads: leading white space, at most one sign, then the
      digit run up to the first non-digit; the value is that run's, negated
      after a minus sign. */
  lemma {:induction false} ParseIntReads(w: string, sign: string, d: string, rest: string)
    requires AllSpace(w) && sign in {"", "+", "-"}
    requires IsDigitRun(d) && (|rest| > 0 ==> !IsDigit(rest[0]))
    ensures var v: int := DigitsValue(d); ParseInt(w + sign + d + rest) == Some(if sign == "-" then -v else v)
  {
    var x := sign + d + rest;
    assert w + sign + d + rest == w + x;
    assert x[0] == if sign == "" then d[0] else sign[0];
    TrimStartSkips(w, x);
    ParseIntSigned(w + x, sign, d, rest);
  }

  lemma {:induction false} ParseIntSigned(s: string, sign: string, d: string, rest: string)
    requires sign in {"", "+", "-"} && TrimStart(s) == sign + d + rest
    requires IsDigitRun(d) && (|rest| > 0 ==> !IsDigit(rest[0]))
    ensures var v: int := DigitsValue(d); ParseInt(s) == Some(if sign == "-" then -v else v)
  {
    var u := sign + d + rest;
    assert u[0] == '-' <==> sign == "-";
    SignedDigits(sign, d, rest);
    ParseIntSteps(s, u, d + rest, |d|);
  }

  /** `ParseInt` read through its three stages. */
  lemma ParseIntSteps(s: string, u: string, t: string, n: nat)
    requires u == TrimStart(s) && t == SignStripped(u) && n == DigitPrefixLen(t) && n > 0
    ensures ParseInt(s) == Some(if |u| > 0 && u[0] == '-' then -(DigitsValue(t[..n]) as int) else DigitsValue(t[..n]))
  {
  }

  lemma {:induction false} SignedDigits(sign: string, d: string, rest: string)
    requires sign in {"", "+", "-"}
    requires IsDigitRun(d) && (|rest| > 0 ==> !IsDigit(rest[0]))
    ensures var t := SignStripped(sign + d + rest);
      && t == d + rest
      && DigitPrefixLen(t) == |d|
      && t[..|d|] == d
  {
    assert SignStripped(sign + d + rest) == d + rest;
    DigitPrefixOfRun(d, rest);
    assert (d + rest)[..|d|] == d;
  }

  /** A text that starts with anything but white space, a sign or a digit
      reads as `NaN`. */
  lemma ParseIntNoNumber(s: string)
    requires |s| > 0 && !IsSpace(s[0]) && s[0] != '+' && s[0] != '-' && !IsDigit(s[0])
    ensures ParseInt(s).None?
  {
    assert TrimStart(s) == s;
    assert SignStripped(s) == s;
  }

  /** `parseInt(String(n), 10) === n` for every non-negative integer. */
  lemma ParseIntOfNat(n: nat)
    ensures ParseInt(NatToString(n)) == Some(n)
  {
    var s := NatToString(n);
    assert TrimStart(s) == s;
    assert SignStripped(s) == s;
    DigitPrefixOfRun(s, "");
    assert s + "" == s;
    assert s[..|s|] == s;
    NatToStringRoundTrip(n);
  }
}
