/** The rule record of server/models/Rule.js: the constructor's defaults,
    `find` with a query object, and `deleteByServerId`. The lookups by id,
    the merge-update and the delete by id are those of `Records`. */
module RuleModel {
  import opened JsValues

  const FIELDS: set<string> :=
    {"_id", "name", "server", "protocol", "sourceIP", "sourcePort", "destinationIP",
     "destinationPort", "action", "chain", "priority", "enabled", "description",
     "createdAt", "updatedAt"}

  /** One field of a new rule: most fields default through `||`; `enabled`
      defaults only when it is `undefined`. */
  function Field(data: Object, k: string, newId: string, now: string): Value {
    if k == "_id" then Or(Get(data, k), Str(newId))
    else if k == "protocol" then Or(Get(data, k), Str("tcp"))
    else if k in {"sourceIP", "sourcePort", "destinationIP", "destinationPort"} then Or(Get(data, k), Str("any"))
    else if k == "action" then Or(Get(data, k), Str("ACCEPT"))
    else if k == "chain" then Or(Get(data, k), Str("INPUT"))
    else if k == "priority" then Or(Get(data, k), Num(0))
    else if k == "enabled" then (if Get(data, k) != Undefined then Get(data, k) else Bool(true))
    else if k == "description" then Or(Get(data, k), Str(""))
    else if k == "createdAt" || k == "updatedAt" then Or(Get(data, k), Str(now))
    else Get(data, k)
  }

  /** `new Rule(data)`. */
  function NewRule(data: Object, newId: string, now: string): (r: Object)
    ensures r.Keys == FIELDS
  {
    map k | k in FIELDS :: Field(data, k, newId, now)
  }

  /** Protocol, action, chain and priority fall back to their defaults when
      the given value is falsy. */
  lemma NewRuleDefaults(data: Object, newId: string, now: string)
    ensures var r := NewRule(data, newId, now);
      && Get(r, "protocol") == (if Truthy(Get(data, "protocol")) then Get(data, "protocol") else Str("tcp"))
      && Get(r, "action") == (if Truthy(Get(data, "action")) then Get(data, "action") else Str("ACCEPT"))
      && Get(r, "chain") == (if Truthy(Get(data, "chain")) then Get(data, "chain") else Str("INPUT"))
      && Get(r, "priority") == (if Truthy(Get(data, "priority")) then Get(data, "priority") else Num(0))
  {
  }

  /** The four address fields default to "any". */
  lemma NewRuleAddresses(data: Object, newId: string, now: string)
    ensures forall k :: k in {"sourceIP", "sourcePort", "destinationIP", "destinationPort"} ==>
      Get(NewRule(data, newId, now), k) == (if Truthy(Get(data, k)) then Get(data, k) else Str("any"))
  {
  }

  /** `enabled` defaults only when missing; name and server are copied. */
  lemma NewRuleEnabled(data: Object, newId: string, now: string)
    ensures var r := NewRule(data, newId, now);
      && Get(r, "enabled") == (if Get(data, "enabled") == Undefined then Bool(true) else Get(data, "enabled"))
      && Get(r, "name") == Get(data, "name") && Get(r, "server") == Get(data, "server")
  {
  }

  /** The identity and bookkeeping fields: a falsy `_id` gets the fresh id,
      a falsy description becomes empty, and falsy time stamps become the
      current time. */
  lemma NewRuleBookkeeping(data: Object, newId: string, now: string)
    ensures var r := NewRule(data, newId, now);
      && Get(r, "_id") == (if Truthy(Get(data, "_id")) then Get(data, "_id") else Str(newId))
      && Get(r, "description") == (if Truthy(Get(data, "description")) then Get(data, "description") else Str(""))
      && Get(r, "createdAt") == (if Truthy(Get(data, "createdAt")) then Get(data, "createdAt") else Str(now))
      && Get(r, "updatedAt") == (if Truthy(Get(data, "updatedAt")) then Get(data, "updatedAt") else Str(now))
  {
  }

  /** `enabled` keeps an explicit `false` (and even `null`), where `||`
      would have replaced it; a missing `enabled` becomes true. */
  lemma EnabledKeepsFalse(newId: string, now: string)
    ensures NewRule(map["enabled" := Bool(false)], newId, now)["enabled"] == Bool(false)
    ensures NewRule(map["enabled" := Null], newId, now)["enabled"] == Null
    ensures NewRule(map[], newId, now)["enabled"] == Bool(true)
    ensures NewRule(map["priority" := Num(0)], newId, now)["priority"] == Num(0)
    ensures NewRule(map["protocol" := Str("")], newId, now)["protocol"] == Str("tcp")
  {
    NewRuleEnabled(map["enabled" := Bool(false)], newId, now);
    NewRuleEnabled(map["enabled" := Null], newId, now);
    NewRuleEnabled(map[], newId, now);
    NewRuleDefaults(map["priority" := Num(0)], newId, now);
    NewRuleDefaults(map["protocol" := Str("")], newId, now);
  }

  // ---------------------------------------------------------------------------
  // queries

  /** Every query key is strictly equal in the rule (a missing key reads as
      `undefined`). */
  predicate MatchesQuery(rule: Object, query: Object) {
    forall k :: k in query ==> Get(rule, k) == query[k]
  }

  /** The rules satisfying `p`, in their order (`Array.prototype.filter`). */
  function Keep(rs: seq<Object>, p: Object -> bool): (kept: seq<Object>)
    ensures |kept| <= |rs|
    ensures forall r :: r in kept <==> r in rs && p(r)
    ensures |kept| == |rs| <==> forall j :: 0 <= j < |rs| ==> p(rs[j])
  {
    if |rs| == 0 then []
    else if p(rs[0]) then [rs[0]] + Keep(rs[1..], p)
    else Keep(rs[1..], p)
  }

  /** `find(query)`: every rule for an empty query, otherwise those matching
      it. */
  function Find(rs: seq<Object>, query: Object): (found: seq<Object>)
    ensures |query| == 0 ==> found == rs
    ensures forall r :: r in found <==> r in rs && MatchesQuery(r, query)
    ensures found == Keep(rs, r => MatchesQuery(r, query))
  {
    if |query| == 0 then KeepAll(rs, r => MatchesQuery(r, query)); rs
    else Keep(rs, r => MatchesQuery(r, query))
  }

  /** `filter` works rule by rule: filtering a concatenation filters each
      part and keeps them in order, and one rule is kept iff it passes. So
      the result is the passing rules in file order, duplicates included. */
  lemma {:induction false} KeepConcat(a: seq<Object>, b: seq<Object>, p: Object -> bool, x: Object)
    ensures Keep(a + b, p) == Keep(a, p) + Keep(b, p)
    ensures Keep([x], p) == if p(x) then [x] else []
    decreases |a|
  {
    if |a| > 0 {
      assert (a + b)[0] == a[0];
      assert (a + b)[1..] == a[1..] + b;
      KeepConcat(a[1..], b, p, x);
    } else {
      assert a + b == b;
    }
  }

  /** Filtering with a test every rule passes keeps them all. */
  lemma {:induction false} KeepAll(rs: seq<Object>, p: Object -> bool)
    requires forall j :: 0 <= j < |rs| ==> p(rs[j])
    ensures Keep(rs, p) == rs
    decreases |rs|
  {
    if |rs| > 0 {
      KeepAll(rs[1..], p);
      assert rs == [rs[0]] + rs[1..];
    }
  }

  /** Skipping the empty-query shortcut would give the same answer: the
      empty query matches every rule. */
  lemma EmptyQueryShortcut(rs: seq<Object>)
    ensures Keep(rs, r => MatchesQuery(r, map[])) == rs
  {
    KeepAll(rs, r => MatchesQuery(r, map[]));
  }

  // ---------------------------------------------------------------------------
  // deleting a server's rules

  /** How many rules belong to `server`. */
  function Owned(rs: seq<Object>, server: Value): nat {
    if |rs| == 0 then 0
    else (if Get(rs[0], "server") == server then 1 else 0) + Owned(rs[1..], server)
  }

  datatype Deletion = Deletion(records: seq<Object>, deletedCount: nat, wrote: bool)

  /** `deleteByServerId`: the rules whose `server` differs are kept; the
      count is the difference in length; the file is written only when
      something was deleted. */
  function DeleteByServer(rs: seq<Object>, server: Value): (d: Deletion)
    ensures forall r :: r in d.records <==> r in rs && Get(r, "server") != server
    ensures |d.records| + d.deletedCount == |rs|
    ensures d.wrote <==> d.deletedCount > 0
    ensures d.records == Keep(rs, r => Get(r, "server") != server)
  {
    var kept := Keep(rs, r => Get(r, "server") != server);
    Deletion(kept, |rs| - |kept|, |rs| - |kept| > 0)
  }

  /** The count reported is the number of rules the server owned. */
  lemma {:induction false} DeletedCountIsOwned(rs: seq<Object>, server: Value)
    ensures DeleteByServer(rs, server).deletedCount == Owned(rs, server)
    decreases |rs|
  {
    if |rs| > 0 {
      DeletedCountIsOwned(rs[1..], server);
    }
  }

  /** Deleting twice: the second call deletes nothing and writes nothing. */
  lemma DeleteByServerIdempotent(rs: seq<Object>, server: Value)
    ensures var once := DeleteByServer(rs, server);
      DeleteByServer(once.records, server) == Deletion(once.records, 0, false)
  {
    var once := DeleteByServer(rs, server);
    var p := (r: Object) => Get(r, "server") != server;
    KeepAll(once.records, p);
  }
}
