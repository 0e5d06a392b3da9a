/** The browser-side data cache of client/src/views/RulesScript.js: entry
    validity under a time-to-live, invalidation, the merged port table, and
    the local removal of a port after a successful disallow. Cache keys are
    strings; the clock reading `now` (milliseconds) is a parameter. */
module ClientCache {
  import opened Maybe
  import opened JsValues

  /** What `dataCache` holds under a key: `null`, an array (the legacy port
      table or an IP list), the `{tcp, udp}` object of the port listing
      (either list possibly absent), or a text. */
  datatype Entry = Nothing | List(items: seq<Value>) | PortSets(tcp: Option<seq<Value>>, udp: Option<seq<Value>>) | Text(s: string)

  /** Arrays and objects are truthy even when empty. */
  predicate Present(e: Entry) {
    match e
    case Nothing => false
    case Text(s) => s != ""
    case _ => true
  }

  datatype Cache = Cache(data: map<string, Entry>, stamps: map<string, int>)

  /** The four cached keys, each with a time-to-live of one minute. */
  const KEYS: set<string> := {"blockList", "sshPortStatus", "inboundPorts", "inboundIPs"}
  const TTL: int := 60000

  /** The state the view starts in: every entry null, every stamp 0. */
  function Initial(): (c: Cache)
    ensures c.data.Keys == KEYS && c.stamps.Keys == KEYS
  {
    Cache(map k | k in KEYS :: Nothing, map k | k in KEYS :: 0)
  }

  /** `isCacheValid(key)`: the entry is truthy and younger than its TTL. A key
      without a TTL or time stamp compares against `NaN` and is never valid. */
  predicate IsCacheValid(c: Cache, key: string, now: int) {
    && key in c.data && Present(c.data[key])
    && key in KEYS && key in c.stamps
    && now - c.stamps[key] < TTL
  }

  /** `invalidateCache(key)`: the time stamp goes to 0 and the entry to an
      empty array (the two list keys) or null; an empty key is ignored. */
  function Invalidate(c: Cache, key: string): (after: Cache)
    ensures key == "" ==> after == c
    ensures key != "" ==> key in after.data && key in after.stamps && after.stamps[key] == 0
    ensures key in {"inboundPorts", "inboundIPs"} ==> after.data[key] == List([])
    ensures key != "" && key !in {"inboundPorts", "inboundIPs"} ==> after.data[key] == Nothing
    ensures forall k :: k != key ==> (k in after.data <==> k in c.data) && (k in c.data ==> after.data[k] == c.data[k])
    ensures forall k :: k != key ==> (k in after.stamps <==> k in c.stamps) && (k in c.stamps ==> after.stamps[k] == c.stamps[k])
  {
    if key == "" then c
    else
      var cleared := if key == "inboundPorts" || key == "inboundIPs" then List([]) else Nothing;
      Cache(c.data[key := cleared], c.stamps[key := 0])
  }

  /** Once a minute has passed since the epoch, an invalidated entry is
      stale, even though the two list keys now hold a (truthy) empty array;
      the other entries keep their validity. */
  lemma InvalidatedIsStale(c: Cache, key: string, other: string, now: int)
    requires key != "" && other != key && now >= TTL
    ensures !IsCacheValid(Invalidate(c, key), key, now)
    ensures IsCacheValid(Invalidate(c, key), other, now) == IsCacheValid(c, other, now)
  {
  }

  // ---------------------------------------------------------------------------
  // the port table

  /** Index of the first occurrence of `x` in `s`. */
  function FirstIndex(s: seq<Value>, x: Value): (i: nat)
    requires x in s
    ensures i < |s| && s[i] == x && x !in s[..i]
  {
    if s[0] == x then 0 else 1 + FirstIndex(s[1..], x)
  }

  predicate NoDuplicates(s: seq<Value>) {
    forall i, j :: 0 <= i < j < |s| ==> s[i] != s[j]
  }

  /** The values of `r`, all drawn from `s`, come in the order in which they
      first occur in `s`. */
  predicate InFirstOccurrenceOrder(s: seq<Value>, r: seq<Value>) {
    && (forall i :: 0 <= i < |r| ==> r[i] in s)
    && (forall i, j :: 0 <= i < j < |r| ==> FirstIndex(s, r[i]) < FirstIndex(s, r[j]))
  }

  /** `[...new Set(s)]`: each value once, in the order of its first
      occurrence (`DedupeKeepsFirstOccurrenceOrder`). */
  function Dedupe(s: seq<Value>): (r: seq<Value>)
    ensures forall x :: x in r <==> x in s
    ensures NoDuplicates(r)
    decreases |s|
  {
    if |s| == 0 then []
    else
      var front := s[..|s| - 1];
      var d := Dedupe(front);
      var last := s[|s| - 1];
      if last in front then d else d + [last]
  }

  /** The deduplicated values come in the order of their first occurrence. */
  lemma {:induction false} DedupeKeepsFirstOccurrenceOrder(s: seq<Value>)
    ensures InFirstOccurrenceOrder(s, Dedupe(s))
    decreases |s|
  {
    if |s| > 0 {
      var front := s[..|s| - 1];
      DedupeKeepsFirstOccurrenceOrder(front);
      OrderInPrefix(front, s, Dedupe(front));
      DedupeStep(s);
      if s[|s| - 1] !in front {
        OrderWithLast(s, Dedupe(front));
      }
    }
  }

  lemma FirstIndexOfPrefix(front: seq<Value>, s: seq<Value>, x: Value)
    requires x in front && front <= s
    ensures FirstIndex(s, x) == FirstIndex(front, x)
  {
    if front[0] != x {
      FirstIndexOfPrefix(front[1..], s[1..], x);
    }
  }

  /** First occurrences in a prefix are first occurrences in the whole. */
  lemma OrderInPrefix(front: seq<Value>, s: seq<Value>, r: seq<Value>)
    requires front <= s && InFirstOccurrenceOrder(front, r)
    ensures InFirstOccurrenceOrder(s, r)
  {
    forall i, j | 0 <= i < j < |r|
      ensures FirstIndex(s, r[i]) < FirstIndex(s, r[j])
    {
      FirstIndexOfPrefix(front, s, r[i]);
      FirstIndexOfPrefix(front, s, r[j]);
    }
  }

  /** A value first occurring at the end of `s` may follow all the others. */
  lemma OrderWithLast(s: seq<Value>, r: seq<Value>)
    requires |s| > 0 && s[|s| - 1] !in s[..|s| - 1]
    requires forall x :: x in r ==> x in s[..|s| - 1]
    requires InFirstOccurrenceOrder(s, r)
    ensures InFirstOccurrenceOrder(s, r + [s[|s| - 1]])
  {
    var last := s[|s| - 1];
    assert forall k :: 0 <= k < |s| - 1 ==> s[k] != last by {
      forall k | 0 <= k < |s| - 1
        ensures s[k] != last
      {
        assert s[..|s| - 1][k] == s[k];
      }
    }
    assert FirstIndex(s, last) == |s| - 1;
    var r' := r + [last];
    forall i, j | 0 <= i < j < |r'|
      ensures FirstIndex(s, r'[i]) < FirstIndex(s, r'[j])
    {
      if j == |r| {
        assert r'[i] == r[i] && r[i] in r;
        assert r[i] in s[..|s| - 1];
        assert FirstIndex(s, r[i]) < |s| - 1;
      } else {
        assert r'[i] == r[i] && r'[j] == r[j];
      }
    }
  }

  /** One row of the port table. */
  datatype Row = Row(port: Value, protocol: string)

  datatype Table = Legacy(items: seq<Value>) | Rows(rows: seq<Row>)

  /** `formattedPorts`: a legacy array is shown as it is; a `{tcp, udp}`
      object as the distinct union of its lists, each row tagged `TCP/UDP`;
      anything else as nothing. */
  function FormattedPorts(e: Entry): (t: Table)
    ensures e.List? ==> t == Legacy(e.items)
    ensures !e.List? ==> t.Rows? && forall i :: 0 <= i < |t.rows| ==> t.rows[i].protocol == "TCP/UDP"
    ensures e.PortSets? ==>
      var all := e.tcp.GetOr([]) + e.udp.GetOr([]);
      && (forall x :: (exists i :: 0 <= i < |t.rows| && t.rows[i].port == x) <==> x in all)
      && |t.rows| == |Dedupe(all)|
      && (forall i :: 0 <= i < |t.rows| ==> t.rows[i].port == Dedupe(all)[i])
    ensures !e.List? && !e.PortSets? ==> t == Rows([])
  {
    match e
    case List(items) => Legacy(items)
    case PortSets(tcp, udp) =>
      var unique := Dedupe(tcp.GetOr([]) + udp.GetOr([]));
      var rows := seq(|unique|, i requires 0 <= i < |unique| => Row(unique[i], "TCP/UDP"));
      assert forall x :: (exists i :: 0 <= i < |rows| && rows[i].port == x) <==> x in unique by {
        forall x | x in unique
          ensures exists i :: 0 <= i < |rows| && rows[i].port == x
        {
          var i :| 0 <= i < |unique| && unique[i] == x;
          assert rows[i].port == x;
        }
      }
      Rows(rows)
    case _ => Rows([])
  }

  /** One step of the deduplication: the last value is kept exactly when it
      does not occur before. */
  lemma DedupeStep(s: seq<Value>)
    requires |s| > 0
    ensures s[|s| - 1] in s[..|s| - 1] ==> Dedupe(s) == Dedupe(s[..|s| - 1])
    ensures s[|s| - 1] !in s[..|s| - 1] ==> Dedupe(s) == Dedupe(s[..|s| - 1]) + [s[|s| - 1]]
  {
  }

  /** A list without repetitions is its own deduplication. */
  lemma {:induction false} DedupeDistinct(s: seq<Value>)
    requires NoDuplicates(s)
    ensures Dedupe(s) == s
    decreases |s|
  {
    if |s| > 0 {
      var front := s[..|s| - 1];
      var last := s[|s| - 1];
      assert NoDuplicates(front) by {
        forall i, j | 0 <= i < j < |front|
          ensures front[i] != front[j]
        {
          assert front[i] == s[i] && front[j] == s[j];
        }
      }
      assert Dedupe(front) == front by {
        DedupeDistinct(front);
      }
      assert last !in front by {
        forall k | 0 <= k < |front|
          ensures front[k] != last
        {
          assert front[k] == s[k];
        }
      }
      assert Dedupe(s) == Dedupe(front) + [last] by {
        DedupeStep(s);
      }
      assert s == front + [last];
    }
  }

  /** Appending values already present adds no row. */
  lemma {:induction false} DedupeAbsorbs(a: seq<Value>, b: seq<Value>)
    requires forall i :: 0 <= i < |b| ==> b[i] in a
    ensures Dedupe(a + b) == Dedupe(a)
    decreases |b|
  {
    if |b| > 0 {
      var front := b[..|b| - 1];
      DedupeAbsorbs(a, front);
      var s := a + b;
      assert s[..|s| - 1] == a + front;
      var last := b[|b| - 1];
      var k :| 0 <= k < |a| && a[k] == last;
      assert s[|s| - 1] == last && s[..|s| - 1][k] == last;
      DedupeStep(s);
      assert Dedupe(s) == Dedupe(a + front);
    } else {
      assert a + b == a;
    }
  }

  /** A port open for both protocols appears once: when both lists hold the
      same ports, the table has one row per port, in the tcp order. */
  lemma SharedPortsShownOnce(ports: seq<Value>)
    requires NoDuplicates(ports)
    ensures var t := FormattedPorts(PortSets(Some(ports), Some(ports)));
      |t.rows| == |ports| && forall i :: 0 <= i < |ports| ==> t.rows[i] == Row(ports[i], "TCP/UDP")
  {
    DedupeAbsorbs(ports, ports);
    DedupeDistinct(ports);
    assert Dedupe(Some(ports).GetOr([]) + Some(ports).GetOr([])) == ports;
  }

  // ---------------------------------------------------------------------------
  // local removal after a disallow

  /** `list.filter(p => p !== port)`. */
  function Without(list: seq<Value>, port: Value): (r: seq<Value>)
    ensures port !in r
    ensures forall x :: x != port ==> (x in r <==> x in list)
    ensures |r| <= |list|
  {
    if |list| == 0 then []
    else if list[0] == port then Without(list[1..], port)
    else [list[0]] + Without(list[1..], port)
  }

  /** The filter works element by element: filtering a concatenation
      filters each part and keeps them in order. */
  lemma {:induction false} WithoutConcat(a: seq<Value>, b: seq<Value>, port: Value, x: Value)
    ensures Without(a + b, port) == Without(a, port) + Without(b, port)
    ensures Without([x], port) == if x == port then [] else [x]
    decreases |a|
  {
    if |a| > 0 {
      assert (a + b)[0] == a[0];
      assert (a + b)[1..] == a[1..] + b;
      WithoutConcat(a[1..], b, port, x);
    } else {
      assert a + b == b;
    }
  }

  /** Removing a port no list holds changes nothing. */
  lemma {:induction false} WithoutAbsent(list: seq<Value>, port: Value)
    requires port !in list
    ensures Without(list, port) == list
    decreases |list|
  {
    if |list| > 0 {
      WithoutAbsent(list[1..], port);
      assert list == [list[0]] + list[1..];
    }
  }

  /** The local update after a successful disallow: the port leaves both
      lists of a `{tcp, udp}` entry and the stamp is renewed; a truthy entry
      of another shape only gets the new stamp. */
  function RemovePort(c: Cache, port: Value, now: int): (after: Cache)
    ensures "inboundPorts" !in c.data || !Present(c.data["inboundPorts"]) ==> after == c
    ensures forall k :: k != "inboundPorts" ==> (k in after.data <==> k in c.data) && (k in c.data ==> after.data[k] == c.data[k])
    ensures "inboundPorts" in c.data && c.data["inboundPorts"].PortSets? ==>
      var e := c.data["inboundPorts"];
      && "inboundPorts" in after.data && after.data["inboundPorts"].PortSets?
      && after.data["inboundPorts"].tcp.Some? == e.tcp.Some?
      && after.data["inboundPorts"].udp.Some? == e.udp.Some?
      && (e.tcp.Some? ==> after.data["inboundPorts"].tcp.value == Without(e.tcp.value, port))
      && (e.udp.Some? ==> after.data["inboundPorts"].udp.value == Without(e.udp.value, port))
  {
    if "inboundPorts" !in c.data || !Present(c.data["inboundPorts"]) then c
    else
      var e := c.data["inboundPorts"];
      var e' := match e
        case PortSets(tcp, udp) =>
          PortSets(if tcp.Some? then Some(Without(tcp.value, port)) else None,
                   if udp.Some? then Some(Without(udp.value, port)) else None)
        case _ => e;
      Cache(c.data["inboundPorts" := e'], c.stamps["inboundPorts" := now])
  }

  /** The port text sent, or `None` when `port.toString()` threw before any
      request was made; and the cache afterwards. */
  datatype Disallowed = Disallowed(sent: Option<string>, cache: Cache)

  /** `executeDisallowPort(port)`: the port is sent as text; only a
      successful answer touches the cache. An `undefined` or `null` port
      throws inside the `try`, so nothing is sent and the cache is kept. */
  function ExecuteDisallowPort(c: Cache, port: Value, succeeded: bool, now: int): (d: Disallowed)
    ensures d.sent.None? <==> port == Undefined || port == Null
    ensures d.sent.Some? ==> d.sent.value == ToStr(port)
    ensures !succeeded || d.sent.None? ==> d.cache == c
    ensures succeeded && d.sent.Some? ==> d.cache == RemovePort(c, port, now)
  {
    match ToStringCall(port)
    case None => Disallowed(None, c)
    case Some(text) => Disallowed(Some(text), if succeeded then RemovePort(c, port, now) else c)
  }

  /** After a successful disallow the port is gone from the table built from
      the cache, and every other port is still there. */
  lemma DisallowedPortLeavesTable(c: Cache, port: Value, now: int, other: Value)
    requires "inboundPorts" in c.data && c.data["inboundPorts"].PortSets?
    requires other != port
    ensures var after := ExecuteDisallowPort(c, port, true, now).cache;
      var before := FormattedPorts(c.data["inboundPorts"]);
      var table := FormattedPorts(after.data["inboundPorts"]);
      && (ExecuteDisallowPort(c, port, true, now).sent.Some? ==>
            forall i :: 0 <= i < |table.rows| ==> table.rows[i].port != port)
      && ((exists i :: 0 <= i < |before.rows| && before.rows[i].port == other) ==>
            exists i :: 0 <= i < |table.rows| && table.rows[i].port == other)
  {
    var e := c.data["inboundPorts"];
    var e' := ExecuteDisallowPort(c, port, true, now).cache.data["inboundPorts"];
    var all := e'.tcp.GetOr([]) + e'.udp.GetOr([]);
    if ExecuteDisallowPort(c, port, true, now).sent.Some? {
      assert port !in all;
    }
    var before := FormattedPorts(e);
    if exists i :: 0 <= i < |before.rows| && before.rows[i].port == other {
      assert other in e.tcp.GetOr([]) + e.udp.GetOr([]);
      if other in e.tcp.GetOr([]) {
        assert other in e'.tcp.GetOr([]);
      } else {
        assert other in e'.udp.GetOr([]);
      }
      assert other in all;
      var table := FormattedPorts(e');
      assert (exists i :: 0 <= i < |table.rows| && table.rows[i].port == other) <==> other in all;
    }
  }
}
