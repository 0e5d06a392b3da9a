/** The server record of server/models/Server.js: the constructor's
    defaults. The store operations are those of `Records`; the generated id
    and the clock reading are parameters. */
module ServerModel {
  import opened JsValues

  /** The fields every constructed server record has. */
  const FIELDS: set<string> :=
    {"_id", "name", "host", "port", "username", "authType", "password", "privateKey",
     "status", "lastConnection", "createdAt", "updatedAt"}

  /** `new Server(data)`: `_id`, `port`, `authType`, `status`,
      `lastConnection` and the time stamps default through `||`; the other
      fields are copied, `undefined` when absent. */
  function NewServer(data: Object, newId: string, now: string): (s: Object)
    ensures s.Keys == FIELDS
    ensures s["_id"] == (if Truthy(Get(data, "_id")) then Get(data, "_id") else Str(newId))
    ensures s["port"] == (if Truthy(Get(data, "port")) then Get(data, "port") else Num(22))
    ensures s["authType"] == (if Truthy(Get(data, "authType")) then Get(data, "authType") else Str("password"))
    ensures s["status"] == (if Truthy(Get(data, "status")) then Get(data, "status") else Str("offline"))
    ensures s["lastConnection"] == (if Truthy(Get(data, "lastConnection")) then Get(data, "lastConnection") else Null)
    ensures s["createdAt"] == (if Truthy(Get(data, "createdAt")) then Get(data, "createdAt") else Str(now))
    ensures s["updatedAt"] == (if Truthy(Get(data, "updatedAt")) then Get(data, "updatedAt") else Str(now))
    ensures forall k :: k in {"name", "host", "username", "password", "privateKey"} ==> s[k] == Get(data, k)
  {
    map k | k in FIELDS :: Field(data, k, newId, now)
  }

  /** One field of a new record. */
  function Field(data: Object, k: string, newId: string, now: string): Value {
    if k == "_id" then Or(Get(data, k), Str(newId))
    else if k == "port" then Or(Get(data, k), Num(22))
    else if k == "authType" then Or(Get(data, k), Str("password"))
    else if k == "status" then Or(Get(data, k), Str("offline"))
    else if k == "lastConnection" then Or(Get(data, k), Null)
    else if k == "createdAt" || k == "updatedAt" then Or(Get(data, k), Str(now))
    else Get(data, k)
  }

  /** A server created from a form that leaves the defaulted fields out (or
      sends 0 and empty strings for them) gets port 22, password
      authentication, status offline, no last connection and a new id. */
  lemma FormDefaults(name: Value, host: Value, port: Value, newId: string, now: string)
    requires !Truthy(port)
    ensures var s := NewServer(map["name" := name, "host" := host, "port" := port, "authType" := Str("")], newId, now);
      && s["_id"] == Str(newId)
      && s["port"] == Num(22)
      && s["authType"] == Str("password")
      && s["status"] == Str("offline")
      && s["lastConnection"] == Null
      && s["createdAt"] == Str(now) && s["updatedAt"] == Str(now)
      && s["name"] == name && s["host"] == host
  {
  }

  /** Constructing a record from a constructed record changes nothing: every
      defaulted field is already truthy. */
  lemma ConstructIdempotent(data: Object, newId: string, otherId: string, now: string, later: string)
    requires newId != "" && now != ""
    ensures NewServer(NewServer(data, newId, now), otherId, later) == NewServer(data, newId, now)
  {
    var s := NewServer(data, newId, now);
    var t := NewServer(s, otherId, later);
    forall k | k in s.Keys
      ensures t[k] == s[k]
    {
      FieldStable(data, newId, now, otherId, later, k);
    }
  }

  /** Each field of a constructed record survives a second construction. */
  lemma FieldStable(data: Object, newId: string, now: string, otherId: string, later: string, k: string)
    requires newId != "" && now != "" && k in FIELDS
    ensures Field(NewServer(data, newId, now), k, otherId, later) == NewServer(data, newId, now)[k]
  {
    var s := NewServer(data, newId, now);
    if k in {"_id", "port", "authType", "status", "createdAt", "updatedAt"} {
      assert Truthy(s[k]);
    }
  }
}
