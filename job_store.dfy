/**
 * The `_jobs` collection of the document store, with the contract the
 * MongoDB driver (src/component/db/mongo.ts) gives the scheduler: documents
 * in insertion order, soft deletion through `_deleted`, `find` and `findOne`
 * over live documents, by-id and by-criteria updates, `create` and
 * `remove`.  The clock is a parameter; the time stamps `_created` and
 * `_updated` are written from it.
 */
module Store {
  import opened Js
  import opened Errors

  type Doc = map<string, JsValue>

  /** The target of `update`: a string id, or a criteria object. */
  datatype Target = ById(id: string) | ByCriteria(criteria: map<string, JsValue>)

  /** A criteria value matches a field; null and undefined also match a missing field. */
  predicate FieldMatches(v: JsValue, c: JsValue) {
    if Nullish(c) then Nullish(v) else v == c
  }

  /** The document satisfies every field of the criteria. */
  predicate Matches(d: Doc, criteria: map<string, JsValue>) {
    forall k :: k in criteria ==> FieldMatches(Field(d, k), criteria[k])
  }

  /** Not soft-deleted: `_deleted: {$ne: true}`. */
  predicate Live(d: Doc) {
    Field(d, "_deleted") != Bool(true)
  }

  /** What `find` returns: the live matching documents, in store order. */
  function Found(docs: seq<Doc>, criteria: map<string, JsValue>): (r: seq<Doc>)
    ensures |r| <= |docs|
    ensures forall d :: d in r ==> d in docs && Live(d) && Matches(d, criteria)
  {
    if |docs| == 0 then []
    else
      var rest := Found(docs[..|docs| - 1], criteria);
      var d := docs[|docs| - 1];
      if Live(d) && Matches(d, criteria) then rest + [d] else rest
  }

  /** The first document with that `_uuid`, deleted or not. */
  function FirstWithId(docs: seq<Doc>, id: string): (i: int)
    ensures -1 <= i < |docs|
    ensures i >= 0 ==> Field(docs[i], "_uuid") == Str(id)
    ensures i >= 0 ==> forall j :: 0 <= j < i ==> Field(docs[j], "_uuid") != Str(id)
    ensures i == -1 ==> forall j :: 0 <= j < |docs| ==> Field(docs[j], "_uuid") != Str(id)
  {
    if |docs| == 0 then -1
    else if Field(docs[0], "_uuid") == Str(id) then 0
    else
      var k := FirstWithId(docs[1..], id);
      assert forall j :: 0 < j < |docs| ==> docs[j] == docs[1..][j - 1];
      if k == -1 then -1 else k + 1
  }

  /** `$set` of the values plus the update time stamp. */
  function SetFields(d: Doc, values: Doc, now: int): Doc {
    (d + values)["_updated" := Int(now)]
  }

  /** The criteria update applied to every matching document, deleted ones included. */
  function UpdatedAll(docs: seq<Doc>, criteria: map<string, JsValue>, values: Doc, now: int): (r: seq<Doc>)
    ensures |r| == |docs|
  {
    seq(|docs|, j requires 0 <= j < |docs| => if Matches(docs[j], criteria) then SetFields(docs[j], values, now) else docs[j])
  }

  function MatchCount(docs: seq<Doc>, criteria: map<string, JsValue>): nat {
    if |docs| == 0 then 0
    else MatchCount(docs[..|docs| - 1], criteria) + (if Matches(docs[|docs| - 1], criteria) then 1 else 0)
  }

  /** The counts a criteria update resolves with. */
  function Counts(n: nat): JsValue {
    Obj(map["found" := Int(n), "modified" := Int(n), "updated" := Int(1)])
  }

  /** `{_uuid: id}`. */
  function IdCriteria(id: string): map<string, JsValue> {
    map["_uuid" := Str(id)]
  }

  /** The documents and the result of the store's `update` with already sanitised values. */
  function Written(docs: seq<Doc>, target: Target, values: Doc, now: int): (seq<Doc>, Result<JsValue>) {
    match target
    case ById(id) =>
      var i := FirstWithId(docs, id);
      if i == -1 then (docs, Err(NotFoundUpdate))
      else (docs[i := SetFields(docs[i], values, now)], Ok(Obj(map["id" := Str(id)])))
    case ByCriteria(criteria) =>
      (UpdatedAll(docs, criteria, values, now), Ok(Counts(MatchCount(docs, criteria))))
  }

  const NotFoundOne: Exception := Fail("not_found", "Object in _jobs not found", "sys_mdb_fo1")
  const NotFoundUpdate: Exception := Fail("not_found", "Object in _jobs not found", "sys_mdb_update2")
  const NotFoundGet: Exception := Fail("not_found", "Object in _jobs not found", "sys_mdb_ge1")

  class Store {
    var docs: seq<Doc>

    constructor()
      ensures docs == []
    {
      docs := [];
    }

    /** `find(criteria)`. */
    method Find(criteria: map<string, JsValue>) returns (r: seq<Doc>)
      ensures r == Found(docs, criteria)
    {
      r := [];
      var i := 0;
      while i < |docs|
        invariant 0 <= i <= |docs|
        invariant r == Found(docs[..i], criteria)
      {
        assert docs[..i + 1][..i] == docs[..i];
        if Live(docs[i]) && Matches(docs[i], criteria) {
          r := r + [docs[i]];
        }
        i := i + 1;
      }
      assert docs[..i] == docs;
    }

    /** `findOne(criteria)`: the first live match, or `not_found`. */
    method FindOne(criteria: map<string, JsValue>) returns (r: Result<Doc>)
      ensures Found(docs, criteria) == [] ==> r == Err(NotFoundOne)
      ensures Found(docs, criteria) != [] ==> r == Ok(Found(docs, criteria)[0])
    {
      var found := Find(criteria);
      if |found| == 0 {
        return Err(NotFoundOne);
      }
      return Ok(found[0]);
    }

    /**
     * `update(id, values)`: the first document with that id gets the values
     * and resolves `{id}`; no such document rejects `not_found`.
     */
    method UpdateById(id: string, values: Doc, now: int) returns (r: Result<JsValue>)
      modifies this
      ensures FirstWithId(old(docs), id) == -1 ==> r == Err(NotFoundUpdate) && docs == old(docs)
      ensures FirstWithId(old(docs), id) >= 0 ==> (r == Ok(Obj(map["id" := Str(id)])) &&
        docs == old(docs)[FirstWithId(old(docs), id) := SetFields(old(docs)[FirstWithId(old(docs), id)], values, now)])
    {
      var i := 0;
      while i < |docs|
        invariant 0 <= i <= |docs|
        invariant forall j :: 0 <= j < i ==> Field(docs[j], "_uuid") != Str(id)
      {
        if Field(docs[i], "_uuid") == Str(id) {
          docs := docs[i := SetFields(docs[i], values, now)];
          return Ok(Obj(map["id" := Str(id)]));
        }
        i := i + 1;
      }
      return Err(NotFoundUpdate);
    }

    /** `updateAll(criteria, values)`: every match is updated; zero matches is no failure. */
    method UpdateAll(criteria: map<string, JsValue>, values: Doc, now: int) returns (r: JsValue)
      modifies this
      ensures docs == UpdatedAll(old(docs), criteria, values, now)
      ensures r == Counts(MatchCount(old(docs), criteria))
    {
      var n := 0;
      var i := 0;
      ghost var before := docs;
      while i < |docs|
        invariant |docs| == |before|
        invariant 0 <= i <= |docs|
        invariant n == MatchCount(before[..i], criteria)
        invariant forall j :: 0 <= j < i ==> docs[j] == UpdatedAll(before, criteria, values, now)[j]
        invariant forall j :: i <= j < |docs| ==> docs[j] == before[j]
      {
        assert before[..i + 1][..i] == before[..i];
        if Matches(docs[i], criteria) {
          docs := docs[i := SetFields(docs[i], values, now)];
          n := n + 1;
        }
        i := i + 1;
      }
      assert before[..i] == before;
      assert docs == UpdatedAll(before, criteria, values, now);
      return Counts(n);
    }

    /**
     * `create(owner, data)`: stamp the object with its creation time,
     * owner and `_uuid` (kept, else fresh) and append it; resolves `{id}`.
     */
    method Create(owner: JsValue, data: JsValue, freshId: string, now: int) returns (r: Result<JsValue>)
      modifies this
      ensures !Truthy(owner) || !Truthy(data) ==>
        r == Err(Fail("validation_error", "Invalid method usage, parameters not defined", "sys_mdb_crv1")) && docs == old(docs)
      ensures Truthy(owner) && Truthy(data) && !owner.Str? ==>
        r == Err(Fail("validation_error", "Owner must be of a string type", "sys_mdb_crv2")) && docs == old(docs)
      ensures Truthy(data) && owner.Str? && owner.s != "" && !data.Obj? ==> r == Err(TypeError) && docs == old(docs)
      ensures r.Ok? <==> data.Obj? && owner.Str? && owner.s != ""
      ensures r.Ok? ==> (docs == old(docs) + [Stamped(data.props, owner, freshId, now)] &&
        r.value == Obj(map["id" := Stamped(data.props, owner, freshId, now)["_uuid"]]))
      ensures (docs, r) == Inserted(old(docs), owner, data, freshId, now)
    {
      if !Truthy(owner) || !Truthy(data) {
        return Err(Fail("validation_error", "Invalid method usage, parameters not defined", "sys_mdb_crv1"));
      }
      if !owner.Str? {
        return Err(Fail("validation_error", "Owner must be of a string type", "sys_mdb_crv2"));
      }
      if !data.Obj? {
        return Err(TypeError);
      }
      var d := Stamped(data.props, owner, freshId, now);
      docs := docs + [d];
      return Ok(Obj(map["id" := d["_uuid"]]));
    }

    /**
     * `remove(id)`: a live document with that id must exist; then every
     * document with that id is marked deleted.
     */
    method Remove(id: string) returns (r: Result<JsValue>)
      modifies this
      ensures Found(old(docs), IdCriteria(id)) == [] ==> r == Err(NotFoundGet) && docs == old(docs)
      ensures Found(old(docs), IdCriteria(id)) != [] ==> (r == Ok(Obj(map["id" := Str(id)])) &&
        docs == Deleted(old(docs), id))
    {
      var found := Find(IdCriteria(id));
      if |found| == 0 {
        return Err(NotFoundGet);
      }
      docs := Deleted(docs, id);
      return Ok(Obj(map["id" := Str(id)]));
    }
  }

  /** The document `create` inserts. */
  function Stamped(data: Doc, owner: JsValue, freshId: string, now: int): Doc {
    var uuid := if Truthy(Field(data, "_uuid")) then data["_uuid"] else Str(freshId);
    data["_created" := Int(now)]["_owner" := owner]["_uuid" := uuid]["_updated" := Int(now)]
  }

  /** The inserted document keeps a given `_uuid`, else takes the fresh one, and keeps every other field. */
  lemma StampedFields(data: Doc, owner: JsValue, freshId: string, now: int)
    ensures var d := Stamped(data, owner, freshId, now);
      && d.Keys == data.Keys + {"_created", "_owner", "_uuid", "_updated"}
      && d["_uuid"] == (if Truthy(Field(data, "_uuid")) then data["_uuid"] else Str(freshId))
      && d["_owner"] == owner && d["_created"] == Int(now) && d["_updated"] == Int(now)
      && forall k :: k in data && k !in {"_created", "_owner", "_uuid", "_updated"} ==> d[k] == data[k]
  {
  }

  /** The documents and the result of `create(owner, data)`. */
  function Inserted(docs: seq<Doc>, owner: JsValue, data: JsValue, freshId: string, now: int): (seq<Doc>, Result<JsValue>) {
    if !Truthy(owner) || !Truthy(data) then
      (docs, Err(Fail("validation_error", "Invalid method usage, parameters not defined", "sys_mdb_crv1")))
    else if !owner.Str? then (docs, Err(Fail("validation_error", "Owner must be of a string type", "sys_mdb_crv2")))
    else if !data.Obj? then (docs, Err(TypeError))
    else
      var d := Stamped(data.props, owner, freshId, now);
      (docs + [d], Ok(Obj(map["id" := d["_uuid"]])))
  }

  /** Without data the store refuses, and keeps its documents. */
  lemma InsertedUndefined(docs: seq<Doc>, owner: JsValue, freshId: string, now: int)
    ensures Inserted(docs, owner, Undefined, freshId, now) ==
      (docs, Err(Fail("validation_error", "Invalid method usage, parameters not defined", "sys_mdb_crv1")))
  {
  }

  /** A create that succeeds appends the stamped document and nothing else. */
  lemma InsertedAppends(docs: seq<Doc>, owner: JsValue, data: Doc, freshId: string, now: int)
    requires Inserted(docs, owner, Obj(data), freshId, now).1.Ok?
    ensures Inserted(docs, owner, Obj(data), freshId, now).0 == docs + [Stamped(data, owner, freshId, now)]
  {
  }

  /** Every document with that id marked `_deleted: true`. */
  function Deleted(docs: seq<Doc>, id: string): (r: seq<Doc>)
    ensures |r| == |docs|
  {
    seq(|docs|, j requires 0 <= j < |docs| =>
      if Matches(docs[j], IdCriteria(id)) then docs[j]["_deleted" := Bool(true)] else docs[j])
  }

  // ---------------------------------------------------------------------
  // Properties of the contract

  /** After a by-id update the document with that id carries the new values. */
  lemma UpdateByIdSets(docs: seq<Doc>, id: string, values: Doc, now: int, k: string)
    requires FirstWithId(docs, id) >= 0 && k in values && k != "_updated"
    ensures var i := FirstWithId(docs, id);
      SetFields(docs[i], values, now)[k] == values[k]
  {
  }

  /** A field after `$set`: the new value where one is given, the old one elsewhere. */
  lemma SetFieldsAt(d: Doc, values: Doc, now: int, k: string)
    ensures Field(SetFields(d, values, now), k) ==
      if k == "_updated" then Int(now) else if k in values then values[k] else Field(d, k)
  {
  }

  /** A by-id update that does not write `_uuid` leaves that document the first with the id. */
  lemma FirstWithIdAfterSet(docs: seq<Doc>, id: string, values: Doc, now: int)
    requires FirstWithId(docs, id) >= 0 && "_uuid" !in values
    ensures var i := FirstWithId(docs, id);
      FirstWithId(docs[i := SetFields(docs[i], values, now)], id) == i
  {
    var i := FirstWithId(docs, id);
    var after := docs[i := SetFields(docs[i], values, now)];
    assert Field(after[i], "_uuid") == Field(docs[i], "_uuid");
  }

  /** Every document carries a string `_uuid`, as every document `create` makes from an object without one does. */
  predicate StringIds(docs: seq<Doc>) {
    forall j :: 0 <= j < |docs| ==> Field(docs[j], "_uuid").Str?
  }

  /** An update that does not write `_uuid` keeps every id a string. */
  lemma WrittenKeepsIds(docs: seq<Doc>, target: Target, values: Doc, now: int)
    requires StringIds(docs) && "_uuid" !in values
    ensures StringIds(Written(docs, target, values, now).0)
  {
    var after := Written(docs, target, values, now).0;
    forall j | 0 <= j < |after| ensures Field(after[j], "_uuid").Str? {
      SetFieldsAt(docs[j], values, now, "_uuid");
    }
  }

  /** Creating from an object without `_uuid` stamps the fresh id, so every id stays a string. */
  lemma InsertedKeepsIds(docs: seq<Doc>, owner: JsValue, data: JsValue, freshId: string, now: int)
    requires StringIds(docs) && (data.Obj? ==> "_uuid" !in data.props)
    ensures StringIds(Inserted(docs, owner, data, freshId, now).0)
  {
    var after := Inserted(docs, owner, data, freshId, now).0;
    forall j | 0 <= j < |after| ensures Field(after[j], "_uuid").Str? {
      if j == |docs| {
        StampedFields(data.props, owner, freshId, now);
      }
    }
  }

  /**
   * A document `find` returned with a criteria on its `_uuid` carries that
   * id, so a by-id update of it finds a document.
   */
  lemma FoundById(docs: seq<Doc>, criteria: map<string, JsValue>, id: string)
    requires Found(docs, criteria) != [] && "_uuid" in criteria && criteria["_uuid"] == Str(id)
    ensures Field(Found(docs, criteria)[0], "_uuid") == Str(id)
    ensures FirstWithId(docs, id) >= 0
  {
    var d := Found(docs, criteria)[0];
    assert d in Found(docs, criteria);
    assert FieldMatches(Field(d, "_uuid"), criteria["_uuid"]);
    var j :| 0 <= j < |docs| && docs[j] == d;
  }

  /** A document `find` returned is in the store, so all its fields are stored ones; with string ids its id is a string. */
  lemma FoundIds(docs: seq<Doc>, criteria: map<string, JsValue>)
    requires StringIds(docs)
    ensures StringIds(Found(docs, criteria))
  {
    var r := Found(docs, criteria);
    forall k | 0 <= k < |r| ensures Field(r[k], "_uuid").Str? {
      assert r[k] in r;
      var j :| 0 <= j < |docs| && docs[j] == r[k];
    }
  }

  /** A criteria update that matches nothing leaves the store as it was. */
  lemma UpdateNothing(docs: seq<Doc>, criteria: map<string, JsValue>, values: Doc, now: int)
    requires forall j :: 0 <= j < |docs| ==> !Matches(docs[j], criteria)
    ensures UpdatedAll(docs, criteria, values, now) == docs
  {
  }

  /** `find` agrees with membership: a live matching document is found. */
  lemma {:induction false} FoundMember(docs: seq<Doc>, criteria: map<string, JsValue>, d: Doc)
    ensures d in Found(docs, criteria) <==> d in docs && Live(d) && Matches(d, criteria)
    decreases |docs|
  {
    if |docs| > 0 {
      var init := docs[..|docs| - 1];
      FoundMember(init, criteria, d);
      assert docs == init + [docs[|docs| - 1]];
    }
  }

  /** `find` returns nothing when no live document matches. */
  lemma {:induction false} FoundNone(docs: seq<Doc>, criteria: map<string, JsValue>)
    requires forall j :: 0 <= j < |docs| ==> !(Live(docs[j]) && Matches(docs[j], criteria))
    ensures Found(docs, criteria) == []
    decreases |docs|
  {
    if |docs| > 0 {
      FoundNone(docs[..|docs| - 1], criteria);
    }
  }

  /** A removed id is no longer found. */
  lemma {:induction false} RemovedNotFound(docs: seq<Doc>, id: string)
    ensures Found(Deleted(docs, id), IdCriteria(id)) == []
    decreases |docs|
  {
    if |docs| > 0 {
      var init := docs[..|docs| - 1];
      RemovedNotFound(init, id);
      assert Deleted(docs, id)[..|docs| - 1] == Deleted(init, id);
    }
  }
}
