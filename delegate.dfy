/**
 * `Delegate` (src/component/delegate.ts): invitations of a user into a
 * scope.  `create` stamps a fresh code and the "pending" status onto the
 * given data, projects it onto the six delegate fields, validates it and
 * passes what the validation resolves with to the store's `create`.  The
 * validation resolves with no value, so the store is always handed
 * `undefined`.
 */
module Delegate {
  import opened Js
  import opened Errors
  import Strip
  import Store

  const DelegateFields: seq<string> := ["scope", "email", "id", "status", "roles", "code"]

  /** `sanitisee(data)`: the six fields, stripped. */
  function Sanitisee(data: map<string, JsValue>): (r: map<string, JsValue>)
    ensures forall k :: k in r <==> k in DelegateFields && k in data && Strip.Kept(data[k])
    ensures forall k :: k in r ==> r[k] == data[k]
  {
    var projected := map k | k in DelegateFields :: Field(data, k);
    Strip.KeptMapFacts(projected);
    Strip.KeptMap(projected)
  }

  /** `validate(delegate)`: the checks in order; success resolves with no value. */
  function Validate(delegate: JsValue): (r: Result<JsValue>)
    ensures r.Ok? ==> r.value == Undefined
    ensures r.Ok? <==>
      (Truthy(delegate) && Truthy(Get(delegate, "scope")) && Truthy(Get(delegate, "email")) &&
       Truthy(Get(delegate, "status")) && Truthy(Get(delegate, "code")) && Truthy(Get(delegate, "roles")) &&
       !StrictEquals(Get(Get(delegate, "roles"), "length"), Int(0)))
    ensures r.Err? ==> IsError(r.ex, "validation_error")
  {
    if !Truthy(delegate) then Err(Fail("validation_error", "Delegate contains no data", "sys_del_va1"))
    else if !Truthy(Get(delegate, "scope")) then Err(Fail("validation_error", "Missing delegate scope", "sys_del_va2"))
    else if !Truthy(Get(delegate, "email")) then Err(Fail("validation_error", "Missing delegate email", "sys_del_va3"))
    else if !Truthy(Get(delegate, "status")) then Err(Fail("validation_error", "Missing delegate status", "sys_del_va4"))
    else if !Truthy(Get(delegate, "code")) then Err(Fail("validation_error", "Missing delegate code", "sys_del_va5"))
    else if !Truthy(Get(delegate, "roles")) || StrictEquals(Get(Get(delegate, "roles"), "length"), Int(0)) then
      Err(Fail("validation_error", "Missing delegate roles", "sys_del_va6"))
    else Ok(Undefined)
  }

  /**
   * The data `create` hands on: its own properties with a fresh code and
   * status "pending".  Setting a property of null or undefined, or of a
   * primitive in strict mode, throws.
   */
  function Prepared(data: JsValue, freshCode: string): Result<map<string, JsValue>> {
    if !data.Obj? && !data.Arr? then Err(TypeError)
    else Ok(OwnProps(data)["code" := Str(freshCode)]["status" := Str("pending")])
  }

  /**
   * `create(data)` against the `_delegates` records `docs`, owned by the
   * system account: the store and the result.
   */
  function Create(docs: seq<Store.Doc>, account: JsValue, data: JsValue, freshCode: string, freshId: string, now: int)
    : (seq<Store.Doc>, Result<JsValue>)
  {
    var prepared := Prepared(data, freshCode);
    if prepared.Err? then (docs, Err(prepared.ex))
    else
      var validated := Validate(Obj(Sanitisee(prepared.value)));
      if validated.Err? then (docs, Err(validated.ex))
      else Store.Inserted(docs, account, validated.value, freshId, now)
  }

  // ---------------------------------------------------------------------
  // Properties

  /** `create` overwrites any given code and status before the checks. */
  lemma CreateStampsCodeAndStatus(data: JsValue, freshCode: string)
    requires data.Obj? && freshCode != ""
    ensures var s := Sanitisee(Prepared(data, freshCode).value);
      Field(s, "code") == Str(freshCode) && Field(s, "status") == Str("pending")
  {
  }

  /** `create` never stores anything: the validation fails, or the store refuses `undefined`. */
  lemma CreateNeverStores(docs: seq<Store.Doc>, account: JsValue, data: JsValue, freshCode: string, freshId: string, now: int)
    ensures var (after, r) := Create(docs, account, data, freshCode, freshId, now);
      after == docs && r.Err? && (r.ex == TypeError || IsError(r.ex, "validation_error"))
  {
    var prepared := Prepared(data, freshCode);
    if prepared.Ok? {
      var validated := Validate(Obj(Sanitisee(prepared.value)));
      if validated.Ok? {
        assert Create(docs, account, data, freshCode, freshId, now) == Store.Inserted(docs, account, Undefined, freshId, now);
        Store.InsertedUndefined(docs, account, freshId, now);
      }
    }
  }

  /** Even a complete delegate ends in the store's "parameters not defined" rejection. */
  lemma CompleteDelegateRejected(docs: seq<Store.Doc>, account: JsValue, data: map<string, JsValue>,
                                 freshCode: string, freshId: string, now: int)
    requires Truthy(Field(data, "scope")) && Truthy(Field(data, "email"))
    requires Field(data, "roles").Arr? && |Field(data, "roles").items| > 0
    requires freshCode != ""
    ensures var r := Create(docs, account, Obj(data), freshCode, freshId, now).1;
      r.Err? && HasTrace(r.ex, "sys_mdb_crv1")
  {
    var p := data["code" := Str(freshCode)]["status" := Str("pending")];
    assert Prepared(Obj(data), freshCode) == Ok(p);
    CompleteSanitisee(data, p);
    ValidateComplete(Sanitisee(p));
    assert Create(docs, account, Obj(data), freshCode, freshId, now) == Store.Inserted(docs, account, Undefined, freshId, now);
  }

  /** The stamped complete delegate keeps what `validate` looks at. */
  lemma CompleteSanitisee(data: map<string, JsValue>, p: map<string, JsValue>)
    requires Truthy(Field(data, "scope")) && Truthy(Field(data, "email"))
    requires Field(data, "roles").Arr? && |Field(data, "roles").items| > 0
    requires Truthy(Field(p, "code")) && Truthy(Field(p, "status"))
    requires forall k :: k != "code" && k != "status" ==> Field(p, k) == Field(data, k)
    ensures var s := Sanitisee(p);
      && Truthy(Field(s, "scope")) && Truthy(Field(s, "email")) && Truthy(Field(s, "status")) && Truthy(Field(s, "code"))
      && Field(s, "roles").Arr? && |Field(s, "roles").items| > 0
  {
    SanitiseeKeeps(p, "scope");
    SanitiseeKeeps(p, "email");
    SanitiseeKeeps(p, "roles");
    SanitiseeKeeps(p, "code");
    SanitiseeKeeps(p, "status");
  }

  /** A truthy delegate field passes `sanitisee` unchanged. */
  lemma SanitiseeKeeps(data: map<string, JsValue>, k: string)
    requires k in DelegateFields && Truthy(Field(data, k))
    ensures Field(Sanitisee(data), k) == Field(data, k)
  {
  }

  /** Every check passes: `validate` resolves with no value. */
  lemma ValidateComplete(d: map<string, JsValue>)
    requires Truthy(Field(d, "scope")) && Truthy(Field(d, "email")) && Truthy(Field(d, "status")) && Truthy(Field(d, "code"))
    requires Field(d, "roles").Arr? && |Field(d, "roles").items| > 0
    ensures Validate(Obj(d)) == Ok(Undefined)
  {
    RolesLength(Field(d, "roles").items);
  }

  /** A list's `length`. */
  lemma RolesLength(roles: seq<JsValue>)
    ensures Get(Arr(roles), "length") == Int(|roles|)
  {
  }

  /** A delegate whose roles are an empty list is refused at the roles check. */
  lemma EmptyRolesRefused(delegate: map<string, JsValue>)
    requires forall k :: k in ["scope", "email", "status", "code"] ==> Truthy(Field(delegate, k))
    requires Field(delegate, "roles") == Arr([])
    ensures Validate(Obj(delegate)).Err? && HasTrace(Validate(Obj(delegate)).ex, "sys_del_va6")
  {
    assert Truthy(Field(delegate, "scope")) && Truthy(Field(delegate, "email"));
    assert Truthy(Field(delegate, "status")) && Truthy(Field(delegate, "code"));
    RolesLength([]);
  }
}
