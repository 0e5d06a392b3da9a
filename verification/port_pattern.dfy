/** The port-list format `disallowInboundPorts` accepts
    (server/controllers/rulesController.js), `/^(\d+(-\d+)?)(,\d+(-\d+)?)*$/`:
    comma-separated items, each a port or a `low-high` range, with nothing
    else. The expression is run as a character automaton, `Matches`, and
    shown equal to the declarative reading, `ValidPortList`. */
module PortPattern {
  import opened Maybe
  import opened Text

  // ---------------------------------------------------------------------------
  // the declarative reading

  /** Index of the first `c` in `t`. */
  function IndexOf(t: string, c: char): (r: Option<nat>)
    ensures r.Some? ==> r.value < |t| && t[r.value] == c && Free(t[..r.value], c)
    ensures r.None? ==> Free(t, c)
  {
    if |t| == 0 then None
    else if t[0] == c then Some(0)
    else match IndexOf(t[1..], c)
      case None => None
      case Some(k) => assert t[..k + 1] == [t[0]] + t[1..][..k]; Some(k + 1)
  }

  /** One item: a digit run, or two digit runs around the first `-`. */
  predicate PortItem(t: string) {
    match IndexOf(t, '-')
    case None => IsDigitRun(t)
    case Some(k) => IsDigitRun(t[..k]) && IsDigitRun(t[k + 1..])
  }

  /** Every comma-separated item is a port or a range (so at least one item,
      and no empty item). */
  predicate ValidPortList(s: string) {
    forall k :: 0 <= k < |Split(s, ',')| ==> PortItem(Split(s, ',')[k])
  }

  // ---------------------------------------------------------------------------
  // the automaton

  /** Where the matcher stands: before an item, inside its first number,
      after its `-`, inside its second number, or failed. */
  datatype State = ExpectFirst | InFirst | ExpectSecond | InSecond | Dead

  function Step(st: State, c: char): State {
    if IsDigit(c) then
      match st
      case ExpectFirst => InFirst
      case InFirst => InFirst
      case ExpectSecond => InSecond
      case InSecond => InSecond
      case Dead => Dead
    else if c == '-' then
      if st == InFirst then ExpectSecond else Dead
    else if c == ',' then
      if st == InFirst || st == InSecond then ExpectFirst else Dead
    else Dead
  }

  function Run(st: State, s: string): State
    decreases |s|
  {
    if |s| == 0 then st else Run(Step(st, s[0]), s[1..])
  }

  /** `$` may only follow a complete number. */
  predicate Final(st: State) {
    st == InFirst || st == InSecond
  }

  /** `portPattern.test(ports)`. */
  predicate Matches(s: string) {
    Final(Run(ExpectFirst, s))
  }

  // ---------------------------------------------------------------------------
  // equivalence

  lemma {:induction false} DeadStays(s: string)
    ensures Run(Dead, s) == Dead
    decreases |s|
  {
    if |s| > 0 {
      DeadStays(s[1..]);
    }
  }

  lemma {:induction false} SecondNumber(t: string)
    requires Free(t, ',')
    ensures Final(Run(InSecond, t)) <==> AllDigits(t)
    decreases |t|
  {
    if |t| > 0 {
      if IsDigit(t[0]) {
        SecondNumber(t[1..]);
      } else {
        DeadStays(t[1..]);
      }
    }
  }

  lemma AfterDash(t: string)
    requires Free(t, ',')
    ensures Final(Run(ExpectSecond, t)) <==> IsDigitRun(t)
  {
    if |t| > 0 {
      if IsDigit(t[0]) {
        SecondNumber(t[1..]);
      } else {
        DeadStays(t[1..]);
      }
    }
  }

  /** Inside the first number: the rest is digits, optionally followed by
      `-` and a digit run. */
  predicate FirstRest(t: string) {
    match IndexOf(t, '-')
    case None => AllDigits(t)
    case Some(k) => AllDigits(t[..k]) && IsDigitRun(t[k + 1..])
  }

  /** A digit in front of the first number changes nothing. */
  lemma FirstRestStep(t: string)
    requires |t| > 0 && IsDigit(t[0])
    ensures FirstRest(t) <==> FirstRest(t[1..])
  {
    match IndexOf(t[1..], '-')
    case None =>
      assert IndexOf(t, '-').None?;
    case Some(k) =>
      assert IndexOf(t, '-') == Some(k + 1);
      assert t[..k + 1] == [t[0]] + t[1..][..k];
      assert t[k + 2..] == t[1..][k + 1..];
  }

  lemma {:induction false} FirstNumber(t: string)
    requires Free(t, ',')
    ensures Final(Run(InFirst, t)) <==> FirstRest(t)
    decreases |t|
  {
    if |t| > 0 {
      if IsDigit(t[0]) {
        FirstNumber(t[1..]);
        FirstRestStep(t);
      } else if t[0] == '-' {
        AfterDash(t[1..]);
        assert t[..0] == "";
      } else {
        DeadStays(t[1..]);
      }
    }
  }

  /** The automaton accepts exactly the port items. */
  lemma ItemAutomaton(t: string)
    requires Free(t, ',')
    ensures Final(Run(ExpectFirst, t)) <==> PortItem(t)
  {
    if |t| > 0 {
      if IsDigit(t[0]) {
        FirstNumber(t[1..]);
        FirstRestStep(t);
        DigitFirst(t);
      } else {
        DeadStays(t[1..]);
        if t[0] == '-' {
          assert t[..0] == "";
        }
      }
    }
  }

  /** An item starting with a digit: the first number is never empty. */
  lemma DigitFirst(t: string)
    requires |t| > 0 && IsDigit(t[0])
    ensures PortItem(t) <==> FirstRest(t)
  {
  }

  /** The items after the first one are all valid. */
  predicate RestValid(parts: seq<string>) {
    forall k :: 1 <= k < |parts| ==> PortItem(parts[k])
  }

  /** A list starting with an empty item, then `rest`. */
  lemma RestAfterEmpty(parts: seq<string>, rest: seq<string>)
    requires |rest| > 0 && parts == [""] + rest
    ensures RestValid(parts) <==> PortItem(rest[0]) && RestValid(rest)
  {
    if RestValid(parts) {
      assert PortItem(parts[1]);
      forall k | 1 <= k < |rest|
        ensures PortItem(rest[k])
      {
        assert parts[k + 1] == rest[k];
      }
    }
    if PortItem(rest[0]) && RestValid(rest) {
      forall k | 1 <= k < |parts|
        ensures PortItem(parts[k])
      {
        assert parts[k] == rest[k - 1];
      }
    }
  }

  /** A list whose first item differs from that of `rest`, the others not. */
  lemma RestSameTail(parts: seq<string>, rest: seq<string>, x: string)
    requires |rest| > 0 && parts == [x] + rest[1..]
    ensures RestValid(parts) <==> RestValid(rest)
  {
    assert forall k :: 1 <= k < |parts| ==> parts[k] == rest[k];
  }

  /** Running the automaton over a list is running it over the first item,
      then over each later item from the start state. */
  lemma {:induction false} RunOverItems(st: State, s: string)
    requires st != Dead
    ensures Final(Run(st, s)) <==> Final(Run(st, Split(s, ',')[0])) && RestValid(Split(s, ','))
    decreases |s|
  {
    if |s| > 0 {
      var rest := Split(s[1..], ',');
      if s[0] == ',' {
        assert Split(s, ',') == [""] + rest;
        if Final(st) {
          RunOverItems(ExpectFirst, s[1..]);
          ItemAutomaton(rest[0]);
          RestAfterEmpty(Split(s, ','), rest);
        } else {
          DeadStays(s[1..]);
        }
      } else {
        var st' := Step(st, s[0]);
        assert Split(s, ',') == [[s[0]] + rest[0]] + rest[1..];
        assert ([s[0]] + rest[0])[1..] == rest[0];
        if st' == Dead {
          DeadStays(s[1..]);
          DeadStays(rest[0]);
        } else {
          RunOverItems(st', s[1..]);
        }
        RestSameTail(Split(s, ','), rest, [s[0]] + rest[0]);
      }
    }
  }

  /** The regular expression accepts a string exactly when every
      comma-separated item of it is a port or a range. */
  lemma MatchesIffValid(s: string)
    ensures Matches(s) <==> ValidPortList(s)
  {
    RunOverItems(ExpectFirst, s);
    ItemAutomaton(Split(s, ',')[0]);
  }
}
