/** The per-server rule cache of server/services/cacheService.js. The cache
    file is meant to hold `{rules: {serverId: {lastUpdate, data}}}`, but its
    path (cacheService.js:8) is the same `rules.json` that app.js and the
    rule model create as `{rules: []}` when no separate data directory is
    configured, so the file is modelled in every shape a call can find it
    in. Each call parses the file (`Parse`), works on the parsed object
    (`Memory`) and writes it back through `JSON.stringify` (`Serialise`).
    The clock reading is a parameter `now`, and `writeOk` says whether
    writing the file succeeds. Cached values are of any type `V`. */
module RulesCache {
  import opened Maybe

  datatype Entry<V> = Entry(lastUpdate: string, data: map<string, V>)

  type Store<V> = map<string, Entry<V>>

  /** The file as `getRulesCache` finds it: missing or not JSON
      (`Unreadable`); parsed with a missing or falsy `rules` (`NoRules`);
      with `rules` an array, as in the rule model's file, whose elements the
      cache never changes (`ArrayRules`); or with `rules` an object of
      server entries (`ObjectRules`). */
  datatype CacheFile<V> = Unreadable | NoRules | ArrayRules | ObjectRules(entries: Store<V>)

  /** The parsed cache object while a call works on it: `rules` as an
      object of entries, as an array carrying entries as properties besides
      its elements, or falsy. */
  datatype Memory<V> = InObject(entries: Store<V>) | InArray(props: Store<V>) | Falsy

  /** The result of a mutating call: its boolean answer, the file after it,
      and whether the file was written. */
  datatype Outcome<V> = Outcome(ok: bool, file: CacheFile<V>, wrote: bool)

  /** A file only the cache itself writes: absent at first, and afterwards
      what the cache wrote. */
  predicate OwnFile<V>(file: CacheFile<V>) {
    file.Unreadable? || file.ObjectRules?
  }

  /** `getRulesCache`: an unreadable file reads as `{rules: {}}`. */
  function Parse<V>(file: CacheFile<V>): (m: Memory<V>)
    ensures m.Falsy? <==> file.NoRules?
    ensures m.InArray? <==> file.ArrayRules?
    ensures m.InArray? ==> m.props == map[]
    ensures OwnFile(file) ==> m == InObject(if file.ObjectRules? then file.entries else map[])
  {
    match file
    case Unreadable => InObject(map[])
    case NoRules => Falsy
    case ArrayRules => InArray(map[])
    case ObjectRules(entries) => InObject(entries)
  }

  /** `JSON.stringify` of the cache object: an array is written as its
      elements, so the entries it carries as other properties are lost. */
  function Serialise<V>(m: Memory<V>): (file: CacheFile<V>)
    ensures Parse(file) == (if m.InArray? then InArray(map[]) else m)
  {
    match m
    case InObject(entries) => ObjectRules(entries)
    case InArray(_) => ArrayRules
    case Falsy => NoRules
  }

  /** Parsing a file and writing it back unchanged gives the same file,
      except that an unreadable one becomes an empty cache. */
  lemma SerialiseParse<V>(file: CacheFile<V>)
    ensures Serialise(Parse(file)) == if file.Unreadable? then ObjectRules(map[]) else file
  {
  }

  /** `cache.rules[serverId]`; a falsy `rules` holds nothing (its callers
      either test `cache.rules` first or catch the error and answer null). */
  function Lookup<V>(m: Memory<V>, id: string): Option<Entry<V>> {
    match m
    case InObject(entries) => if id in entries then Some(entries[id]) else None
    case InArray(props) => if id in props then Some(props[id]) else None
    case Falsy => None
  }

  /** `cache.rules[serverId] = entry`, on an object or an array alike. */
  function Put<V>(m: Memory<V>, id: string, e: Entry<V>): (r: Memory<V>)
    requires !m.Falsy?
    ensures Lookup(r, id) == Some(e) && r.InArray? == m.InArray?
    ensures forall other :: other != id ==> Lookup(r, other) == Lookup(m, other)
  {
    match m
    case InObject(entries) => InObject(entries[id := e])
    case InArray(props) => InArray(props[id := e])
  }

  /** `delete cache.rules[serverId]`. */
  function Remove<V>(m: Memory<V>, id: string): (r: Memory<V>)
    ensures Lookup(r, id).None? && r.InArray? == m.InArray? && r.Falsy? == m.Falsy?
    ensures forall other :: other != id ==> Lookup(r, other) == Lookup(m, other)
  {
    match m
    case InObject(entries) => InObject(entries - {id})
    case InArray(props) => InArray(props - {id})
    case Falsy => Falsy
  }

  /** `getServerRulesCache(serverId)`: the entry, or null. Only a file
      whose `rules` is an object can hold one. */
  function GetServer<V>(file: CacheFile<V>, id: string): (r: Option<Entry<V>>)
    ensures r.Some? <==> file.ObjectRules? && id in file.entries
    ensures r.Some? ==> r.value == file.entries[id]
  {
    Lookup(Parse(file), id)
  }

  /** `saveRulesCache(cache)`: a failed write answers false and leaves the
      file as it was; a successful one makes every entry the object held
      readable, and none of those an array carried. */
  function Write<V>(file: CacheFile<V>, m: Memory<V>, writeOk: bool): (o: Outcome<V>)
    ensures o.ok == writeOk && o.wrote
    ensures !writeOk ==> o.file == file
    ensures writeOk ==> forall id :: GetServer(o.file, id) == if m.InArray? then None else Lookup(m, id)
  {
    if writeOk then Outcome(true, Serialise(m), true) else Outcome(false, file, true)
  }

  /** `saveServerRulesCache(serverId, data)`: a falsy `rules` is replaced by
      an empty object, and the whole entry is replaced. */
  function SaveServer<V>(file: CacheFile<V>, id: string, data: map<string, V>, now: string, writeOk: bool): (o: Outcome<V>)
    ensures o.ok == writeOk && o.wrote
    ensures !writeOk ==> o.file == file
    ensures writeOk ==> GetServer(o.file, id) == if file.ArrayRules? then None else Some(Entry(now, data))
    ensures writeOk && file.ArrayRules? ==> o.file == file
    ensures forall other :: other != id ==> GetServer(o.file, other) == GetServer(file, other)
  {
    var m := Parse(file);
    var rules := if m.Falsy? then InObject(map[]) else m;
    Write(file, Put(rules, id, Entry(now, data)), writeOk)
  }

  /** `updateServerCacheItem(serverId, key, value)`: a missing entry is
      created empty first; then one key is set and the time stamp renewed.
      With a falsy `rules` the first property read throws, and the call
      answers false without writing. */
  function UpdateItem<V>(file: CacheFile<V>, id: string, key: string, value: V, now: string, writeOk: bool): (o: Outcome<V>)
    ensures o.wrote <==> !file.NoRules?
    ensures o.ok <==> writeOk && !file.NoRules?
    ensures !o.ok ==> o.file == file
    ensures o.ok && file.ArrayRules? ==> o.file == file
    ensures o.ok && OwnFile(file) ==> o.file.ObjectRules? && id in o.file.entries
    ensures o.ok && OwnFile(file) ==> forall other :: other != id ==> GetServer(o.file, other) == GetServer(file, other)
    ensures o.ok && OwnFile(file) ==> var e := o.file.entries[id];
      && e.lastUpdate == now
      && key in e.data && e.data[key] == value
      && (forall k :: k != key ==> (k in e.data <==> GetServer(file, id).Some? && k in GetServer(file, id).value.data))
      && (forall k :: k != key && k in e.data ==> e.data[k] == GetServer(file, id).value.data[k])
  {
    var m := Parse(file);
    if m.Falsy? then Outcome(false, file, false)
    else
      var entry := if Lookup(m, id).Some? then Lookup(m, id).value else Entry(now, map[]);
      Write(file, Put(m, id, Entry(now, entry.data[key := value])), writeOk)
  }

  /** `clearServerRulesCache(serverId)`: removes the one entry; with no
      entry it answers true without touching the file. */
  function Clear<V>(file: CacheFile<V>, id: string, writeOk: bool): (o: Outcome<V>)
    ensures o.wrote <==> GetServer(file, id).Some?
    ensures o.ok <==> GetServer(file, id).None? || writeOk
    ensures o.ok ==> GetServer(o.file, id).None?
    ensures !o.ok || !o.wrote ==> o.file == file
    ensures forall other :: other != id ==> GetServer(o.file, other) == GetServer(file, other)
  {
    var m := Parse(file);
    if Lookup(m, id).Some? then Write(file, Remove(m, id), writeOk) else Outcome(true, file, false)
  }

  /** `getServerCacheLastUpdate(serverId)`. */
  function LastUpdate<V>(file: CacheFile<V>, id: string): (r: Option<string>)
    ensures r.Some? <==> GetServer(file, id).Some?
    ensures r.Some? ==> r.value == GetServer(file, id).value.lastUpdate
  {
    match Lookup(Parse(file), id)
    case Some(e) => Some(e.lastUpdate)
    case None => None
  }

  /** Reading back a key just written gives the written value and the new
      time stamp, in a file of the cache's own; in the rule model's
      array-shaped file, or one without `rules`, nothing can be read back. */
  lemma UpdateThenGet<V>(file: CacheFile<V>, id: string, key: string, value: V, now: string)
    ensures var after := UpdateItem(file, id, key, value, now, true).file;
      && (OwnFile(file) ==>
            && GetServer(after, id).Some?
            && key in GetServer(after, id).value.data
            && GetServer(after, id).value.data[key] == value
            && LastUpdate(after, id) == Some(now))
      && (!OwnFile(file) ==> GetServer(after, id).None? && LastUpdate(after, id).None?)
  {
  }

  /** Updating one server's entry leaves every other server's entry as it was. */
  lemma UpdateKeepsOthers<V>(file: CacheFile<V>, id: string, key: string, value: V, now: string, other: string)
    requires other != id
    ensures GetServer(UpdateItem(file, id, key, value, now, true).file, other) == GetServer(file, other)
  {
  }

  /** Updating a server that had no entry leaves it holding the one key, in
      a file of the cache's own. */
  lemma UpdateCreatesEntry<V>(file: CacheFile<V>, id: string, key: string, value: V, now: string)
    requires GetServer(file, id).None?
    ensures OwnFile(file) ==>
      GetServer(UpdateItem(file, id, key, value, now, true).file, id) == Some(Entry(now, map[key := value]))
  {
  }

  /** Saving replaces the entry: keys cached before and not in the new data
      are gone, in a file of the cache's own. */
  lemma SaveDiscardsOldKeys<V>(file: CacheFile<V>, id: string, data: map<string, V>, now: string, key: string)
    requires key !in data
    ensures var after := SaveServer(file, id, data, now, true).file;
      !file.ArrayRules? ==> GetServer(after, id).Some? && key !in GetServer(after, id).value.data
  {
  }

  /** After a successful clear, neither the entry nor its time stamp can be
      read; entries of other servers are untouched. */
  lemma ClearThenGet<V>(file: CacheFile<V>, id: string, other: string)
    requires other != id
    ensures var after := Clear(file, id, true).file;
      && GetServer(after, id).None?
      && LastUpdate(after, id).None?
      && GetServer(after, other) == GetServer(file, other)
  {
  }

  /** Clearing twice is clearing once, and the second call writes nothing. */
  lemma ClearIdempotent<V>(file: CacheFile<V>, id: string, writeOk: bool)
    ensures var once := Clear(file, id, true);
      Clear(once.file, id, writeOk) == Outcome(true, once.file, false)
  {
  }

  /** As written, in the file the rule model shares (`{rules: [...]}`), every
      save and update answers true on a successful write, yet leaves the file
      as it was and is never read back; a clear finds nothing to remove. */
  lemma {:induction false} SharedFileLosesWrites<V>(id: string, key: string, value: V, data: map<string, V>, now: string)
    ensures var saved := SaveServer(ArrayRules, id, data, now, true);
      saved.ok && saved.file == ArrayRules && GetServer(saved.file, id).None?
    ensures var updated := UpdateItem(ArrayRules, id, key, value, now, true);
      updated.ok && updated.file == ArrayRules && GetServer(updated.file, id).None?
    ensures Clear<V>(ArrayRules, id, true) == Outcome(true, ArrayRules, false)
  {
    var saved := SaveServer(ArrayRules, id, data, now, true);
    assert Serialise(InArray(map[id := Entry(now, data)])) == ArrayRules;
    var e := Entry(now, map[key := value]);
    assert Serialise(InArray(map[id := e])) == ArrayRules;
  }

  /** With a file of its own, the cache keeps what it writes: every call
      leaves such a file in that shape, and a saved entry reads back. */
  lemma {:induction false} OwnFileKeepsWrites<V>(file: CacheFile<V>, id: string, key: string, value: V,
                                                  data: map<string, V>, now: string, writeOk: bool)
    requires OwnFile(file)
    ensures OwnFile(SaveServer(file, id, data, now, writeOk).file)
    ensures OwnFile(UpdateItem(file, id, key, value, now, writeOk).file)
    ensures OwnFile(Clear(file, id, writeOk).file)
    ensures writeOk ==> GetServer(SaveServer(file, id, data, now, writeOk).file, id) == Some(Entry(now, data))
  {
    var m := Parse(file);
    assert m.InObject?;
    assert Put(m, id, Entry(now, data)).InObject?;
  }
}
