/** The JSON record stores of server/models/Server.js and
    server/models/Rule.js. Both keep an array of plain objects and share the
    same lookup, append, merge-update and delete code; here the array is a
    sequence of `Object`s, the file read and write are left out, and the
    clock reading used for `updatedAt` is a parameter `now`. */
module Records {
  import opened Maybe
  import opened JsValues

  /** `records.findIndex(r => r._id === id)`, with `None` for -1. */
  function FindIndex(rs: seq<Object>, id: Value): (r: Option<nat>)
    ensures r.Some? ==> r.value < |rs| && Get(rs[r.value], "_id") == id
    ensures r.Some? ==> forall j :: 0 <= j < r.value ==> Get(rs[j], "_id") != id
    ensures r.None? <==> forall j :: 0 <= j < |rs| ==> Get(rs[j], "_id") != id
  {
    if |rs| == 0 then None
    else if Get(rs[0], "_id") == id then Some(0)
    else match FindIndex(rs[1..], id)
      case None => None
      case Some(k) => Some(k + 1)
  }

  /** `findById`: the first record with that id, or null. */
  function FindById(rs: seq<Object>, id: Value): (r: Option<Object>)
    ensures r.Some? <==> exists j :: 0 <= j < |rs| && Get(rs[j], "_id") == id
    ensures r.Some? ==> r.value in rs && Get(r.value, "_id") == id
  {
    match FindIndex(rs, id)
    case None => None
    case Some(i) => Some(rs[i])
  }

  /** `create`: the new record goes to the end. */
  function Create(rs: seq<Object>, record: Object): (after: seq<Object>)
    ensures |after| == |rs| + 1 && after[..|rs|] == rs && after[|rs|] == record
  {
    rs + [record]
  }

  /** `{...record, ...update, updatedAt: now}`: the update's fields win over
      the record's, and the time stamp always wins. */
  function Merge(record: Object, update: Object, now: string): (m: Object)
    ensures m.Keys == record.Keys + update.Keys + {"updatedAt"}
    ensures m["updatedAt"] == Str(now)
    ensures forall k :: k in update && k != "updatedAt" ==> m[k] == update[k]
    ensures forall k :: k in record && k !in update && k != "updatedAt" ==> m[k] == record[k]
  {
    (record + update)["updatedAt" := Str(now)]
  }

  datatype Changed = Changed(records: seq<Object>, result: Option<Object>)

  /** `findByIdAndUpdate`: null and nothing written for an unknown id; else
      the first record with the id is merged in place and returned. */
  function UpdateById(rs: seq<Object>, id: Value, update: Object, now: string): (c: Changed)
    ensures FindIndex(rs, id).None? ==> c == Changed(rs, None)
    ensures FindIndex(rs, id).Some? ==>
      var i := FindIndex(rs, id).value;
      && |c.records| == |rs|
      && c.result == Some(Merge(rs[i], update, now))
      && c.records[i] == Merge(rs[i], update, now)
      && (forall j :: 0 <= j < |rs| && j != i ==> c.records[j] == rs[j])
  {
    match FindIndex(rs, id)
    case None => Changed(rs, None)
    case Some(i) => Changed(rs[i := Merge(rs[i], update, now)], Some(Merge(rs[i], update, now)))
  }

  /** `findByIdAndDelete`: null for an unknown id; else the first record with
      the id is spliced out and returned. */
  function DeleteById(rs: seq<Object>, id: Value): (c: Changed)
    ensures FindIndex(rs, id).None? ==> c == Changed(rs, None)
    ensures FindIndex(rs, id).Some? ==>
      var i := FindIndex(rs, id).value;
      && c.result == Some(rs[i])
      && c.records == rs[..i] + rs[i + 1..]
  {
    match FindIndex(rs, id)
    case None => Changed(rs, None)
    case Some(i) => Changed(rs[..i] + rs[i + 1..], Some(rs[i]))
  }

  /** A record just created can be found, unless an earlier record already
      has its id, and finding it gives back the record itself. */
  lemma CreateThenFind(rs: seq<Object>, record: Object)
    requires FindById(rs, Get(record, "_id")).None?
    ensures FindById(Create(rs, record), Get(record, "_id")) == Some(record)
  {
    var after := Create(rs, record);
    var id := Get(record, "_id");
    assert forall j :: 0 <= j < |rs| ==> Get(rs[j], "_id") != id;
    assert forall j :: 0 <= j < |rs| ==> after[j] == rs[j];
    var i := FindIndex(after, id).value;
    assert i == |rs|;
  }

  /** Updating and then finding the same id gives the merged record. */
  lemma {:induction false} UpdateThenFind(rs: seq<Object>, id: Value, update: Object, now: string)
    requires FindIndex(rs, id).Some?
    requires "_id" !in update
    ensures FindById(UpdateById(rs, id, update, now).records, id) == UpdateById(rs, id, update, now).result
  {
    var i := FindIndex(rs, id).value;
    var after := UpdateById(rs, id, update, now).records;
    assert Get(after[i], "_id") == id;
    assert forall j :: 0 <= j < i ==> after[j] == rs[j];
    assert FindIndex(after, id) == Some(i);
  }

  /** After an update, the record found under the id reads each field from
      the update when the update has it, and from the old record otherwise. */
  lemma UpdatedField(rs: seq<Object>, id: Value, update: Object, now: string, k: string)
    requires FindById(rs, id).Some? && "_id" !in update && k != "updatedAt"
    ensures var after := UpdateById(rs, id, update, now).records;
      && FindById(after, id).Some?
      && Get(FindById(after, id).value, k) == if k in update then update[k] else Get(FindById(rs, id).value, k)
  {
    UpdateThenFind(rs, id, update, now);
  }

  /** Deleting removes exactly one record, and the others keep their order. */
  lemma DeleteKeepsOthers(rs: seq<Object>, id: Value)
    requires FindIndex(rs, id).Some?
    ensures var c := DeleteById(rs, id);
      var i := FindIndex(rs, id).value;
      && |c.records| == |rs| - 1
      && (forall j :: 0 <= j < i ==> c.records[j] == rs[j])
      && (forall j :: i <= j < |c.records| ==> c.records[j] == rs[j + 1])
  {
  }

  /** Ids are looked up from the front: when an id occurs twice, deleting it
      once leaves the later record findable. */
  lemma DeleteExposesDuplicate(a: Object, b: Object)
    requires Get(a, "_id") == Get(b, "_id")
    ensures DeleteById([a, b], Get(a, "_id")) == Changed([b], Some(a))
    ensures FindById(DeleteById([a, b], Get(a, "_id")).records, Get(a, "_id")) == Some(b)
  {
    assert [a, b][1..] == [b];
  }
}
