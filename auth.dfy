/**
 * The local part of the `Auth` component (src/component/auth/index.ts):
 * parsing of the `Authorization` header under the Bearer scheme of section
 * 2.1 of RFC 6750, forced token issue, and the projection and validation of
 * the token-request parameters for the grant types of sections 4.1
 * (authorization code) and 4.3 (resource owner password) of RFC 6749.
 *
 * The token store lookup is a function parameter, and `issue` returns the
 * value it hands to the token store.
 */
module Auth {
  import opened Js
  import opened Errors

  // ---------------------------------------------------------------------
  // resolve

  /** The token the header names: the second space-separated part, if any. */
  function TokenPart(parts: seq<string>): JsValue {
    if |parts| > 1 then Str(parts[1]) else Undefined
  }

  /**
   * `resolve(token)`: no header or an empty one, or a first part other than
   * "bearer" in any case, is a validation error; a lookup that finds nothing
   * becomes an auth error, and other lookup errors pass through.
   */
  function Resolve(token: Option<string>, lookup: JsValue -> Result<JsValue>): Result<JsValue> {
    if token.None? || token.value == "" then
      Err(Fail("validation_error", "token not specified", "system_auth_resolve1"))
    else
      var split := Split(token.value, ' ');
      if Lower(split[0]) != "bearer" then
        Err(Fail("validation_error", "Unsupported token type", "system_auth_resolve2"))
      else
        var found := lookup(TokenPart(split));
        if found.Err? && IsError(found.ex, "not_found") then
          Err(Fail("auth_error", "Invalid autentication token", "system_auth_resolve3"))
        else found
  }

  lemma LowerBearer()
    ensures Lower("Bearer") == "bearer"
  {
  }

  /** A well-formed `Bearer <token>` header looks the token up. */
  lemma ResolveBearer(t: string, lookup: JsValue -> Result<JsValue>)
    requires ' ' !in t
    ensures Resolve(Some("Bearer " + t), lookup) ==
      (if lookup(Str(t)).Err? && IsError(lookup(Str(t)).ex, "not_found")
       then Err(Fail("auth_error", "Invalid autentication token", "system_auth_resolve3"))
       else lookup(Str(t)))
  {
    assert Join(["Bearer", t], ' ') == "Bearer " + t;
    SplitJoin(["Bearer", t], ' ');
    LowerBearer();
  }

  /** Whatever resolves passed the scheme check and came from the lookup. */
  lemma ResolveOk(token: Option<string>, lookup: JsValue -> Result<JsValue>)
    requires Resolve(token, lookup).Ok?
    ensures token.Some? && token.value != ""
    ensures Lower(Split(token.value, ' ')[0]) == "bearer"
    ensures Resolve(token, lookup) == lookup(TokenPart(Split(token.value, ' ')))
  {
  }

  /** Only a `not_found` from the lookup is turned into an `auth_error`. */
  lemma ResolveErrors(token: string, lookup: JsValue -> Result<JsValue>)
    requires token != "" && Lower(Split(token, ' ')[0]) == "bearer"
    requires lookup(TokenPart(Split(token, ' '))).Err?
    ensures IsError(lookup(TokenPart(Split(token, ' '))).ex, "not_found") ==>
      IsError(Resolve(Some(token), lookup).ex, "auth_error")
    ensures !IsError(lookup(TokenPart(Split(token, ' '))).ex, "not_found") ==>
      Resolve(Some(token), lookup) == lookup(TokenPart(Split(token, ' ')))
  {
  }

  // ---------------------------------------------------------------------
  // issue

  /** What `issue` hands to `token.create`: the user record and the token's lifetime. */
  datatype Issued = Issued(user: JsValue, ttl: JsValue)

  /**
   * `issue(userData, permissions, ttl)`, with `config` the `auth` section
   * of the configuration: the user record has `_uuid` kept, else taken
   * from `id`, else "gen-" and a fresh id, and permissions defaulting to
   * []; the lifetime is `ttl`, or `bearerTokenTTL` when `ttl` is falsy.
   * Setting a property on a primitive throws in strict mode.
   */
  function Issue(userData: JsValue, permissions: JsValue, ttl: JsValue, config: JsValue, freshId: string): (r: Result<Issued>)
    requires !userData.Arr?
    ensures Truthy(userData) && !userData.Obj? <==> r == Err(TypeError)
    ensures r.Ok? ==> r.value.user.Obj? && "_uuid" in r.value.user.props && "permissions" in r.value.user.props
  {
    var user := if Truthy(userData) then userData else Obj(map[]);
    if !user.Obj? then Err(TypeError)
    else
      var m := user.props;
      var uuid := if Truthy(Field(m, "_uuid")) then m["_uuid"]
                  else if Truthy(Field(m, "id")) then m["id"]
                  else Str("gen-" + freshId);
      var record := Obj(m["_uuid" := uuid]["permissions" := if Truthy(permissions) then permissions else Arr([])]);
      Ok(Issued(record, if Truthy(ttl) then ttl else Get(config, "bearerTokenTTL")))
  }

  /** The identifier chosen by issue, and nothing else of the user changes. */
  lemma IssueIdentity(m: map<string, JsValue>, permissions: JsValue, ttl: JsValue, config: JsValue, freshId: string)
    ensures var u := Issue(Obj(m), permissions, ttl, config, freshId).value.user.props;
      && (Truthy(Field(m, "_uuid")) ==> u["_uuid"] == m["_uuid"])
      && (!Truthy(Field(m, "_uuid")) && Truthy(Field(m, "id")) ==> u["_uuid"] == m["id"])
      && (!Truthy(Field(m, "_uuid")) && !Truthy(Field(m, "id")) ==> u["_uuid"] == Str("gen-" + freshId))
      && u["permissions"] == (if Truthy(permissions) then permissions else Arr([]))
      && u.Keys == m.Keys + {"_uuid", "permissions"}
      && (forall k :: k in m && k != "_uuid" && k != "permissions" ==> u[k] == m[k])
  {
  }

  /** Issuing for no user data gives a generated identifier. */
  lemma IssueAnonymous(ttl: JsValue, config: JsValue, freshId: string)
    ensures Issue(Undefined, Undefined, ttl, config, freshId).value.user ==
      Obj(map["_uuid" := Str("gen-" + freshId), "permissions" := Arr([])])
  {
  }

  /**
   * The token's lifetime: a truthy `ttl` is used as given, whatever is
   * configured; a missing or falsy one (undefined, null, 0, "") takes the
   * configured `bearerTokenTTL`, and the user record does not depend on
   * either.
   */
  lemma IssueTtl(userData: JsValue, permissions: JsValue, ttl: JsValue, config: JsValue, freshId: string)
    requires !userData.Arr? && Issue(userData, permissions, ttl, config, freshId).Ok?
    ensures Truthy(ttl) ==> Issue(userData, permissions, ttl, config, freshId).value.ttl == ttl
    ensures !Truthy(ttl) ==> Issue(userData, permissions, ttl, config, freshId).value.ttl == Get(config, "bearerTokenTTL")
    ensures Issue(userData, permissions, ttl, config, freshId).value.user ==
      Issue(userData, permissions, Undefined, Obj(map[]), freshId).value.user
  {
  }

  // ---------------------------------------------------------------------
  // authenticate: sanitizeParams, validateParams, grant dispatch

  const ParamNames: set<string> := {"grant_type", "scope", "email", "password", "client_id", "code"}

  /** `sanitizeParams`: exactly the six token-request parameters are read. */
  function SanitizeParams(params: JsValue): (r: Result<JsValue>)
    ensures Nullish(params) <==> r.Err?
    ensures r.Ok? ==> r.value.Obj? && r.value.props.Keys == ParamNames
    ensures r.Ok? ==> forall k :: k in r.value.props ==> r.value.props[k] == Get(params, k)
  {
    if Nullish(params) then Err(TypeError)
    else Ok(Obj(map["grant_type" := Get(params, "grant_type"), "scope" := Get(params, "scope"),
                    "email" := Get(params, "email"), "password" := Get(params, "password"),
                    "client_id" := Get(params, "client_id"), "code" := Get(params, "code")]))
  }

  /** The result is a rejection carrying this trace tag. */
  predicate Rejected<T>(r: Result<T>, trace: string) {
    r.Err? && HasTrace(r.ex, trace)
  }

  function Invalid(description: string, trace: string): Result<JsValue> {
    Err(Fail("validation_error", description, trace))
  }

  /** `validateParams`: the guard chain; the parameters themselves are returned. */
  function ValidateParams(input: JsValue): Result<JsValue> {
    var params := if Truthy(input) then input else Obj(map[]);
    if OwnProps(params) == map[] then Invalid("No authentication parameters supplied", "system_auth_validate1")
    else
      var grant := Get(params, "grant_type");
      if !Truthy(grant) then Invalid("Unspecified grant type", "system_auth_validate2")
      else if grant == Str("password") then
        if !Truthy(Get(params, "email")) then Invalid("Email must be specified", "system_auth_validate3")
        else if !Truthy(Get(params, "password")) then Invalid("password must be specified", "system_auth_validate4")
        else Ok(params)
      else if grant == Str("authorization_code") then
        if !Truthy(Get(params, "client_id")) then Invalid("client_id must be specified", "system_auth_validate5")
        else if !Truthy(Get(params, "code")) then Invalid("code must be specified", "system_auth_validate6")
        else Ok(params)
      else Invalid("Invalid grant type " + ToStr(grant), "system_auth_validate7")
  }

  /** The two local grant flows. */
  datatype Grant =
    | PasswordGrant(params: JsValue)
    | CodeGrant(params: JsValue)

  /** `authenticate`: validate the sanitised parameters, then pick the flow. */
  function Authenticate(params: JsValue): Result<Grant> {
    var sanitised := SanitizeParams(params);
    if sanitised.Err? then Err(sanitised.ex)
    else
      var par := ValidateParams(sanitised.value);
      if par.Err? then Err(par.ex)
      else
        var grant := Get(par.value, "grant_type");
        if grant == Str("password") then Ok(PasswordGrant(par.value))
        else if grant == Str("authorization_code") then Ok(CodeGrant(par.value))
        else Err(Fail("validation_error", "Invalid grant type", "system_auth2"))
  }

  /** Reference characterisation of accepted parameters. */
  predicate WellFormed(params: JsValue) {
    var g := Get(params, "grant_type");
    (g == Str("password") && Truthy(Get(params, "email")) && Truthy(Get(params, "password"))) ||
    (g == Str("authorization_code") && Truthy(Get(params, "client_id")) && Truthy(Get(params, "code")))
  }

  /** Validation accepts exactly the well-formed requests and returns them unchanged. */
  lemma ValidateAccepts(params: JsValue)
    requires Truthy(params)
    ensures ValidateParams(params).Ok? <==> WellFormed(params)
    ensures ValidateParams(params).Ok? ==> ValidateParams(params).value == params
    ensures ValidateParams(params).Err? ==> IsError(ValidateParams(params).ex, "validation_error")
  {
    if WellFormed(params) {
      WellFormedPasses(params);
    } else {
      ValidateRejects(params);
    }
  }

  lemma WellFormedPasses(params: JsValue)
    requires Truthy(params) && WellFormed(params)
    ensures ValidateParams(params) == Ok(params)
  {
    assert "grant_type" in OwnProps(params);
  }

  lemma ValidateRejects(params: JsValue)
    requires Truthy(params) && !WellFormed(params)
    ensures ValidateParams(params).Err? && IsError(ValidateParams(params).ex, "validation_error")
  {
  }

  /** Sanitised parameters always have six own properties, so validate1 cannot fire. */
  lemma NoParametersUnreachable(params: JsValue)
    requires !Nullish(params)
    ensures !Rejected(ValidateParams(SanitizeParams(params).value), "system_auth_validate1")
  {
    var s := SanitizeParams(params).value;
    assert "grant_type" in OwnProps(s);
  }

  /**
   * `authenticate` picks the flow named by the grant type once the request
   * is well-formed; its own "Invalid grant type" branch is unreachable.
   */
  lemma AuthenticateDispatch(params: JsValue)
    requires !Nullish(params)
    ensures Authenticate(params).Ok? <==> WellFormed(SanitizeParams(params).value)
    ensures Authenticate(params).Ok? && Get(params, "grant_type") == Str("password") ==>
      Authenticate(params).value.PasswordGrant?
    ensures Authenticate(params).Ok? && Get(params, "grant_type") != Str("password") ==>
      Authenticate(params).value.CodeGrant?
    ensures !Rejected(Authenticate(params), "system_auth2")
  {
    var s := SanitizeParams(params).value;
    NoParametersUnreachable(params);
    ValidateAccepts(s);
    assert Get(s, "grant_type") == Get(params, "grant_type");
  }
}
