/**
 * The user component's pure core (src/component/user.ts): aggregation of a
 * user's role mappings, the guard of `addRoleToUser`, the patch `update`
 * writes, and the checks and projections applied to user data.
 *
 * Store reads are parameters (the mapping records of `userRole.find`, the
 * result of `get`), the password hash is an uninterpreted function and the
 * clock is a number.
 */
module User {
  import opened Js
  import opened Errors
  import Strip
  import Role
  import Authorize

  // ---------------------------------------------------------------------
  // getUserRoles

  /** A `_user_roles` record; "" stands for an absent scope or status. */
  datatype RoleMapping = RoleMapping(role: string, scope: string, status: string)

  /** Counted mappings: no status, "active" or "enabled". */
  predicate Counted(m: RoleMapping) {
    m.status == "" || m.status == "active" || m.status == "enabled"
  }

  /** The roles of counted unscoped mappings, in order and with repetitions. */
  function UnscopedRoles(ms: seq<RoleMapping>): seq<string> {
    if |ms| == 0 then []
    else
      var m := ms[|ms| - 1];
      UnscopedRoles(ms[..|ms| - 1]) + (if Counted(m) && m.scope == "" then [m.role] else [])
  }

  /** The roles of counted mappings under one scope, in order and with repetitions. */
  function ScopeRoles(ms: seq<RoleMapping>, scope: string): seq<string> {
    if |ms| == 0 then []
    else
      var m := ms[|ms| - 1];
      ScopeRoles(ms[..|ms| - 1], scope) + (if Counted(m) && m.scope != "" && m.scope == scope then [m.role] else [])
  }

  /** The scopes that occur in counted mappings. */
  function Scopes(ms: seq<RoleMapping>): set<string> {
    if |ms| == 0 then {}
    else
      var m := ms[|ms| - 1];
      Scopes(ms[..|ms| - 1]) + (if Counted(m) && m.scope != "" then {m.scope} else {})
  }

  /** The value `getUserRoles` resolves with. */
  datatype UserRoles =
    | Plain(roles: seq<string>)
    | ScopedRoles(global: seq<string>, scoped: map<string, seq<string>>)

  function UserRolesOf(ms: seq<RoleMapping>): UserRoles {
    var global := Role.AddNew([], UnscopedRoles(ms));
    if Scopes(ms) == {} then Plain(global)
    else ScopedRoles(global, map s | s in Scopes(ms) :: Role.AddNew([], ScopeRoles(ms, s)))
  }

  /** `roles` and `scopes` are what the loop has built from the records `ms`. */
  ghost predicate Aggregates(roles: seq<string>, scopes: map<string, seq<string>>, ms: seq<RoleMapping>) {
    && roles == Role.AddNew([], UnscopedRoles(ms))
    && scopes.Keys == Scopes(ms)
    && forall s :: s in scopes ==> scopes[s] == Role.AddNew([], ScopeRoles(ms, s))
  }

  /** The loop of `getUserRoles` over the mapping records. */
  method GetUserRoles(rolemap: seq<RoleMapping>) returns (r: UserRoles)
    ensures r == UserRolesOf(rolemap)
  {
    var roles: seq<string> := [];
    var scopes: map<string, seq<string>> := map[];
    var i := 0;
    while i < |rolemap|
      invariant 0 <= i <= |rolemap|
      invariant Aggregates(roles, scopes, rolemap[..i])
    {
      assert rolemap[..i + 1] == rolemap[..i] + [rolemap[i]];
      roles, scopes := AddMapping(roles, scopes, rolemap[i], rolemap[..i]);
      i := i + 1;
    }
    assert rolemap[..i] == rolemap;
    if |scopes| > 0 {
      return ScopedRoles(roles, scopes);
    }
    assert scopes.Keys == {};
    return Plain(roles);
  }

  /** One iteration: a counted record adds its role to its scope's list or to the global one. */
  method AddMapping(roles: seq<string>, scopes: map<string, seq<string>>, m: RoleMapping, ghost ms: seq<RoleMapping>)
    returns (roles': seq<string>, scopes': map<string, seq<string>>)
    requires Aggregates(roles, scopes, ms)
    ensures Aggregates(roles', scopes', ms + [m])
  {
    Unfold(ms, m);
    if Counted(m) && m.scope != "" {
      roles' := roles;
      scopes' := AddScoped(scopes, m, ms);
    } else if Counted(m) {
      assert forall s :: ScopeRoles(ms + [m], s) == ScopeRoles(ms, s);
      roles' := AddGlobal(roles, m, ms);
      scopes' := scopes;
    } else {
      assert forall s :: ScopeRoles(ms + [m], s) == ScopeRoles(ms, s);
      roles', scopes' := roles, scopes;
    }
  }

  /** A counted scoped record: its role joins its scope's list. */
  method AddScoped(scopes: map<string, seq<string>>, m: RoleMapping, ghost ms: seq<RoleMapping>)
    returns (scopes': map<string, seq<string>>)
    requires Counted(m) && m.scope != ""
    requires scopes.Keys == Scopes(ms)
    requires forall s :: s in scopes ==> scopes[s] == Role.AddNew([], ScopeRoles(ms, s))
    ensures scopes'.Keys == Scopes(ms + [m])
    ensures forall s :: s in scopes' ==> scopes'[s] == Role.AddNew([], ScopeRoles(ms + [m], s))
  {
    Unfold(ms, m);
    var list := if m.scope in scopes then scopes[m.scope] else [];
    if m.scope !in scopes {
      NoScopeNoRoles(ms, m.scope);
    }
    Role.AddNewAppend([], ScopeRoles(ms, m.scope), [m.role]);
    Role.AddNewSingle(list, m.role);
    if m.role !in list {
      list := list + [m.role];
    }
    assert list == Role.AddNew([], ScopeRoles(ms + [m], m.scope));
    scopes' := scopes[m.scope := list];
    forall s | s in scopes' ensures scopes'[s] == Role.AddNew([], ScopeRoles(ms + [m], s)) {
      if s != m.scope {
        assert scopes'[s] == scopes[s];
      }
    }
  }

  /** A counted unscoped record: its role joins the global list. */
  method AddGlobal(roles: seq<string>, m: RoleMapping, ghost ms: seq<RoleMapping>) returns (roles': seq<string>)
    requires Counted(m) && m.scope == ""
    requires roles == Role.AddNew([], UnscopedRoles(ms))
    ensures roles' == Role.AddNew([], UnscopedRoles(ms + [m]))
  {
    Unfold(ms, m);
    Role.AddNewAppend([], UnscopedRoles(ms), [m.role]);
    Role.AddNewSingle(roles, m.role);
    roles' := roles;
    if m.role !in roles {
      roles' := roles + [m.role];
    }
  }

  /** The aggregates of one more record. */
  lemma Unfold(ms: seq<RoleMapping>, m: RoleMapping)
    ensures Counted(m) && m.scope != "" ==> UnscopedRoles(ms + [m]) == UnscopedRoles(ms)
    ensures Counted(m) && m.scope == "" ==> UnscopedRoles(ms + [m]) == UnscopedRoles(ms) + [m.role]
    ensures !Counted(m) ==> UnscopedRoles(ms + [m]) == UnscopedRoles(ms)
    ensures Counted(m) && m.scope != "" ==> Scopes(ms + [m]) == Scopes(ms) + {m.scope}
    ensures !(Counted(m) && m.scope != "") ==> Scopes(ms + [m]) == Scopes(ms)
    ensures forall s :: Counted(m) && m.scope == s && s != "" ==> ScopeRoles(ms + [m], s) == ScopeRoles(ms, s) + [m.role]
    ensures forall s :: !(Counted(m) && m.scope == s && s != "") ==> ScopeRoles(ms + [m], s) == ScopeRoles(ms, s)
  {
    var next := ms + [m];
    assert next[..|ms|] == ms && next[|ms|] == m;
  }

  /** A scope that occurs in no counted mapping has no roles. */
  lemma {:induction false} NoScopeNoRoles(ms: seq<RoleMapping>, scope: string)
    requires scope !in Scopes(ms)
    ensures ScopeRoles(ms, scope) == []
    decreases |ms|
  {
    if |ms| > 0 {
      NoScopeNoRoles(ms[..|ms| - 1], scope);
    }
  }

  lemma {:induction false} UnscopedMember(ms: seq<RoleMapping>, role: string)
    ensures role in UnscopedRoles(ms) <==> exists k :: 0 <= k < |ms| && Counted(ms[k]) && ms[k].scope == "" && ms[k].role == role
    decreases |ms|
  {
    if |ms| > 0 {
      var init := ms[..|ms| - 1];
      UnscopedMember(init, role);
      assert forall k :: 0 <= k < |init| ==> init[k] == ms[k];
    }
  }

  lemma {:induction false} ScopedMember(ms: seq<RoleMapping>, scope: string, role: string)
    ensures role in ScopeRoles(ms, scope) <==>
      exists k :: 0 <= k < |ms| && Counted(ms[k]) && ms[k].scope != "" && ms[k].scope == scope && ms[k].role == role
    ensures scope in Scopes(ms) <==> exists k :: 0 <= k < |ms| && Counted(ms[k]) && ms[k].scope != "" && ms[k].scope == scope
    decreases |ms|
  {
    if |ms| > 0 {
      var init := ms[..|ms| - 1];
      ScopedMember(init, scope, role);
      assert forall k :: 0 <= k < |init| ==> init[k] == ms[k];
    }
  }

  /** The global list holds each counted unscoped role, once. */
  lemma GlobalRoles(ms: seq<RoleMapping>, role: string)
    ensures var g := if UserRolesOf(ms).Plain? then UserRolesOf(ms).roles else UserRolesOf(ms).global;
      Role.NoDuplicates(g) &&
      (role in g <==> exists k :: 0 <= k < |ms| && Counted(ms[k]) && ms[k].scope == "" && ms[k].role == role)
  {
    Role.AddNewProperties([], UnscopedRoles(ms));
    UnscopedMember(ms, role);
  }

  /** Each scope's list holds each counted role of that scope, once. */
  lemma ScopedRolesOf(ms: seq<RoleMapping>, scope: string, role: string)
    requires UserRolesOf(ms).ScopedRoles? && scope in UserRolesOf(ms).scoped
    ensures scope != ""
    ensures Role.NoDuplicates(UserRolesOf(ms).scoped[scope])
    ensures role in UserRolesOf(ms).scoped[scope] <==>
      exists k :: 0 <= k < |ms| && Counted(ms[k]) && ms[k].scope == scope && ms[k].role == role
  {
    Role.AddNewProperties([], ScopeRoles(ms, scope));
    ScopedMember(ms, scope, role);
  }

  /** The result is scoped exactly when some counted mapping has a scope. */
  lemma UserRolesShape(ms: seq<RoleMapping>)
    ensures UserRolesOf(ms).ScopedRoles? <==> exists k :: 0 <= k < |ms| && Counted(ms[k]) && ms[k].scope != ""
  {
    if exists k :: 0 <= k < |ms| && Counted(ms[k]) && ms[k].scope != "" {
      var k :| 0 <= k < |ms| && Counted(ms[k]) && ms[k].scope != "";
      ScopedMember(ms, ms[k].scope, "");
    } else if Scopes(ms) != {} {
      var s :| s in Scopes(ms);
      ScopedMember(ms, s, "");
    }
  }

  // ---------------------------------------------------------------------
  // addRoleToUser, update

  /** The guard of `addRoleToUser`: the role code "global" (trimmed, any case) is refused. */
  function AddRoleGuard(roleIdOrCode: JsValue): (r: Result<()>)
    ensures r.Err? <==> Lower(Trim(ToStr(roleIdOrCode))) == "global"
    ensures r.Err? ==> r == Err(Fail("validation_error", "Invalid role global", "sys_user_artu1"))
  {
    if Lower(Trim(ToStr(roleIdOrCode))) == "global" then Err(Fail("validation_error", "Invalid role global", "sys_user_artu1"))
    else Ok(())
  }

  lemma TrimGlobal()
    ensures Trim("GLOBAL") == "GLOBAL"
  {
    assert !IsJsSpace('G') && !IsJsSpace('L');
    assert TrimStart("GLOBAL") == "GLOBAL";
  }

  /** Upper case does not get around the guard. */
  lemma UpperCaseGlobalRefused()
    ensures AddRoleGuard(Str("GLOBAL")).Err?
  {
    TrimGlobal();
    LowerGlobal();
  }

  lemma LowerGlobal()
    ensures Lower("GLOBAL") == "global"
  {
    LowerSpells("GLOBAL", "global");
  }

  lemma LowerSpells(s: string, t: string)
    requires |s| == |t| && forall k :: 0 <= k < |s| ==> LowerChar(s[k]) == t[k]
    ensures Lower(s) == t
  {
  }

  /**
   * The patch `update` writes: only the status, after strip; an empty patch
   * is refused.  The user is read first, so a missing user fails first.
   */
  function UpdatePatch(user: Result<JsValue>, data: JsValue): (r: Result<JsValue>)
    ensures user.Err? ==> r == Err(user.ex)
  {
    if user.Err? then Err(user.ex)
    else if Nullish(data) then Err(TypeError)
    else
      var patch := Strip.Stripped(Obj(map["status" := Get(data, "status")]));
      if OwnProps(patch) == map[] then Err(Fail("validation_error", "No data to update", "system_user_update"))
      else Ok(patch)
  }

  /** Update writes `{status}` exactly when the status survives strip. */
  lemma UpdateOnlyStatus(user: JsValue, data: JsValue)
    requires !Nullish(data)
    ensures UpdatePatch(Ok(user), data).Ok? <==> Strip.Kept(Get(data, "status"))
    ensures UpdatePatch(Ok(user), data).Ok? ==> UpdatePatch(Ok(user), data).value == Obj(map["status" := Get(data, "status")])
    ensures UpdatePatch(Ok(user), data).Err? ==> IsError(UpdatePatch(Ok(user), data).ex, "validation_error")
  {
    var m := map["status" := Get(data, "status")];
    assert OwnProps(Obj(m)) == m;
    assert "status" in m;
    if Strip.Kept(Get(data, "status")) {
      assert Strip.KeptProps(Obj(m)) == m;
    } else {
      assert Strip.KeptProps(Obj(m)) == map[];
    }
  }

  // ---------------------------------------------------------------------
  // validateUpdatePassword

  /**
   * `validateUpdatePassword`: Ok(true) when a valid reset code was given,
   * Ok(Undefined) when the old password matches.  `hash(p, salt)` is the
   * `.hash` of the uninterpreted password hash.
   */
  function ValidateUpdatePassword(user: JsValue, passwordOrResetCode: JsValue, newPassword: JsValue,
                                  hash: (JsValue, JsValue) -> JsValue, now: int): Result<JsValue>
  {
    if !Truthy(user) then Err(Fail("validation_error", "User must be specified", "system_user_validate_up1"))
    else if !Truthy(passwordOrResetCode) then
      Err(Fail("validation_error", "Password or reset code must be specified", "system_user_validate_up2"))
    else if !Truthy(newPassword) then Err(Fail("validation_error", "New password must be specified", "system_user_validate_up3"))
    else if StrictEquals(passwordOrResetCode, newPassword) then
      Err(Fail("validation_error", "Old and new passwords must be different", "system_user_validate_up4"))
    else
      var stored := Get(user, "password");
      if Nullish(stored) then Err(TypeError)
      else if StrictEquals(hash(passwordOrResetCode, Get(stored, "salt")), Get(stored, "hash")) then Ok(Undefined)
      else
        var reset := Get(user, "reset");
        if Truthy(reset) && StrictEquals(passwordOrResetCode, Get(reset, "code")) then
          if Truthy(Get(reset, "expired")) || LessThan(Get(reset, "expires"), Int(now)) then
            Err(Fail("validation_error", "Expired reset code", "system_user_validate_up5"))
          else Ok(Bool(true))
        else Err(Fail("validation_error", "Invalid password or reset code", "system_user_validate_up6"))
  }

  /**
   * Only a matching, unexpired reset code yields true; a matching password
   * yields no value; everything else is rejected.
   */
  lemma UpdatePasswordOutcomes(user: JsValue, given: JsValue, newPassword: JsValue, hash: (JsValue, JsValue) -> JsValue, now: int)
    ensures ValidateUpdatePassword(user, given, newPassword, hash, now) == Ok(Bool(true)) <==>
      Truthy(user) && Truthy(given) && Truthy(newPassword) && !StrictEquals(given, newPassword) &&
      !Nullish(Get(user, "password")) &&
      !StrictEquals(hash(given, Get(Get(user, "password"), "salt")), Get(Get(user, "password"), "hash")) &&
      Truthy(Get(user, "reset")) && StrictEquals(given, Get(Get(user, "reset"), "code")) &&
      !Truthy(Get(Get(user, "reset"), "expired")) && !LessThan(Get(Get(user, "reset"), "expires"), Int(now))
    ensures ValidateUpdatePassword(user, given, newPassword, hash, now).Ok? ==> !StrictEquals(given, newPassword) && Truthy(newPassword)
    ensures ValidateUpdatePassword(user, given, newPassword, hash, now).Err? && ValidateUpdatePassword(user, given, newPassword, hash, now).ex.App? ==>
      IsError(ValidateUpdatePassword(user, given, newPassword, hash, now).ex, "validation_error")
  {
  }

  /**
   * The stored expiry `reset.expires < Date.now()` compares as a number: a
   * number or a decimal string by its value, null as 0; a missing expiry
   * never runs out.
   */
  lemma ResetExpiry(e: int, now: int)
    ensures LessThan(Int(e), Int(now)) <==> e < now
    ensures LessThan(Str(IntStr(e)), Int(now)) <==> e < now
    ensures LessThan(Null, Int(now)) <==> 0 < now
    ensures !LessThan(Undefined, Int(now))
  {
    NumericStringLessThan(e, now);
  }

  /** Reusing the old password as the new one is refused before the hash is looked at. */
  lemma SamePasswordRefused(user: JsValue, p: string, hash: (JsValue, JsValue) -> JsValue, now: int)
    requires Truthy(user) && p != ""
    ensures ValidateUpdatePassword(user, Str(p), Str(p), hash, now) ==
      Err(Fail("validation_error", "Old and new passwords must be different", "system_user_validate_up4"))
  {
  }

  // ---------------------------------------------------------------------
  // validateMeta

  /** A configured description, "" when it is falsy. */
  function Description(v: JsValue): string {
    if Truthy(v) then ToStr(v) else ""
  }

  /** The check of one configured meta field. */
  function MetaCheck(meta: JsValue, spec: JsValue, name: string): Result<()> {
    if Nullish(meta) || Nullish(spec) then Err(TypeError)
    else
      var value := Get(meta, name);
      if Get(spec, "mandatory") == Bool(true) && !Truthy(value) then
        Err(Fail("validation_error", Description(Get(spec, "message")), "system_user_validate_meta1"))
      else if Truthy(value) && Truthy(Get(spec, "options")) then
        match Authorize.Lookup(Get(spec, "options"), value)
        case None => Err(TypeError)
        case Some(found) =>
          if found then Ok(())
          else Err(Fail("validation_error", "Invalid value for " + name + " is " + ToStr(value), "system_user_validate_meta2"))
      else Ok(())
  }

  /**
   * `validateMeta`: every configured field is checked; the fields are
   * visited in an unspecified order, so which failure is reported is only
   * known to be one of the failing fields.
   */
  method ValidateMeta(meta: JsValue, conf: map<string, JsValue>) returns (r: Result<()>)
    ensures r.Ok? <==> forall name :: name in conf ==> MetaCheck(meta, conf[name], name).Ok?
    ensures r.Err? ==> exists name :: name in conf && MetaCheck(meta, conf[name], name) == r
  {
    var names := conf.Keys;
    while names != {}
      invariant names <= conf.Keys
      invariant forall name :: name in conf && name !in names ==> MetaCheck(meta, conf[name], name).Ok?
      decreases names
    {
      var name :| name in names;
      var check := MetaCheck(meta, conf[name], name);
      if check.Err? {
        return check;
      }
      names := names - {name};
    }
    return Ok(());
  }

  /** A mandatory field that is missing is always reported. */
  lemma MandatoryMissing(meta: map<string, JsValue>, conf: map<string, JsValue>, name: string)
    requires name in conf && conf[name].Obj? && Get(conf[name], "mandatory") == Bool(true)
    requires !Truthy(Field(meta, name))
    ensures MetaCheck(Obj(meta), conf[name], name).Err?
    ensures exists n :: n in conf && MetaCheck(Obj(meta), conf[n], n).Err?
  {
    assert Get(Obj(meta), name) == Field(meta, name);
  }

  /** A value listed among a field's options passes that field's check. */
  lemma ListedOptionPasses(meta: map<string, JsValue>, spec: map<string, JsValue>, name: string, options: seq<JsValue>)
    requires name in meta && Truthy(meta[name]) && "options" in spec && spec["options"] == Arr(options)
    requires Contains(options, meta[name])
    ensures MetaCheck(Obj(meta), Obj(spec), name) == Ok(())
  {
    assert Get(Obj(spec), "options") == Arr(options);
    assert Get(Obj(meta), name) == meta[name];
  }

  // ---------------------------------------------------------------------
  // sanitizeUser

  /** The email as stored: trimmed and lower-cased; null when missing. */
  function Email(v: JsValue): Result<JsValue> {
    if !Truthy(v) then Ok(Null)
    else if v.Str? then Ok(Str(Lower(Trim(v.s))))
    else Err(TypeError)
  }

  /** The meta fields copied: those configured whose value is truthy. */
  function MetaCopy(userMeta: JsValue, confMeta: map<string, JsValue>): map<string, JsValue> {
    map name | name in confMeta && Truthy(Get(userMeta, name)) :: Get(userMeta, name)
  }

  /** The meta loop of `sanitizeUser`. */
  method CopyMeta(userMeta: JsValue, confMeta: map<string, JsValue>) returns (r: map<string, JsValue>)
    ensures r == MetaCopy(userMeta, confMeta)
  {
    r := map[];
    var names := confMeta.Keys;
    while names != {}
      invariant names <= confMeta.Keys
      invariant forall n :: n in r <==> n in confMeta && n !in names && Truthy(Get(userMeta, n))
      invariant forall n :: n in r ==> r[n] == Get(userMeta, n)
      decreases names
    {
      var name :| name in names;
      if Truthy(Get(userMeta, name)) {
        r := r[name := Get(userMeta, name)];
      }
      names := names - {name};
    }
  }

  const UserFields: set<string> := {"email", "password", "status", "context", "verify", "expire", "reset", "resetExpire", "meta"}

  /** `sanitizeUser(user, skipMeta)` with the configured `user.meta` section. */
  function SanitizeUser(user: JsValue, skipMeta: bool, confMeta: JsValue): Result<JsValue> {
    if Nullish(user) then Err(TypeError)
    else
      var email := Email(Get(user, "email"));
      if email.Err? then Err(email.ex)
      else Ok(Strip.Stripped(Obj(UserDraft(user, email.value, skipMeta, confMeta))))
  }

  /** The record `sanitizeUser` builds before `strip`: the user fields, and `meta` when copied. */
  function UserDraft(user: JsValue, email: JsValue, skipMeta: bool, confMeta: JsValue): map<string, JsValue> {
    var ret := map["email" := email, "password" := Get(user, "password"), "status" := Get(user, "status"),
                   "context" := Get(user, "context"), "verify" := Get(user, "verify"), "expire" := Get(user, "expire"),
                   "reset" := Get(user, "reset"), "resetExpire" := Get(user, "resetExpire")];
    if !skipMeta && Truthy(Get(user, "meta")) && Truthy(confMeta)
    then ret["meta" := Obj(MetaCopy(Get(user, "meta"), OwnProps(confMeta)))]
    else ret
  }

  /**
   * A sanitised user holds only user fields, only kept values, an email in
   * trimmed lower case, and meta fields that are configured and truthy.
   */
  lemma SanitizeUserProperties(user: JsValue, skipMeta: bool, confMeta: JsValue)
    requires SanitizeUser(user, skipMeta, confMeta).Ok?
    ensures var r := SanitizeUser(user, skipMeta, confMeta).value;
      r.Obj? && r.props.Keys <= UserFields &&
      (forall k :: k in r.props ==> Strip.Kept(r.props[k])) &&
      ("email" in r.props ==> Get(user, "email").Str? && r.props["email"] == Str(Lower(Trim(Get(user, "email").s)))) &&
      ("meta" in r.props ==> (!skipMeta && r.props["meta"].Obj? &&
        r.props["meta"].props.Keys <= OwnProps(confMeta).Keys &&
        forall n :: n in r.props["meta"].props ==> Truthy(r.props["meta"].props[n])))
  {
    var email := Email(Get(user, "email")).value;
    var draft := Obj(UserDraft(user, email, skipMeta, confMeta));
    DraftShape(user, email, skipMeta, confMeta);
    MetaCopyShape(Get(user, "meta"), OwnProps(confMeta));
    Strip.StrippedValuesKept(draft);
    Strip.StripKeeps(draft, "email");
    Strip.StripKeeps(draft, "meta");
  }

  /** The draft holds user fields only, the given email, and `meta` only as the copied configured fields. */
  lemma DraftShape(user: JsValue, email: JsValue, skipMeta: bool, confMeta: JsValue)
    ensures var d := UserDraft(user, email, skipMeta, confMeta);
      && d.Keys <= UserFields && "email" in d && d["email"] == email
      && ("meta" in d ==> !skipMeta && d["meta"] == Obj(MetaCopy(Get(user, "meta"), OwnProps(confMeta))))
  {
  }

  /** The copied meta fields are configured and truthy. */
  lemma MetaCopyShape(userMeta: JsValue, confMeta: map<string, JsValue>)
    ensures MetaCopy(userMeta, confMeta).Keys <= confMeta.Keys
    ensures forall n :: n in MetaCopy(userMeta, confMeta) ==> Truthy(MetaCopy(userMeta, confMeta)[n])
  {
  }

  /** Normalising an email twice gives the same as normalising it once. */
  lemma EmailIdempotent(s: string)
    ensures Lower(Trim(Lower(Trim(s)))) == Lower(Trim(s))
  {
    var t := Trim(s);
    TrimmedEnds(s);
    var u := Lower(t);
    if |t| > 0 {
      LowerKeepsSpace(t[0]);
      LowerKeepsSpace(t[|t| - 1]);
      assert u[0] == LowerChar(t[0]) && u[|u| - 1] == LowerChar(t[|t| - 1]);
    }
    TrimFixed(u);
    LowerIdempotent(t);
  }

  lemma TrimmedEnds(s: string)
    ensures |Trim(s)| > 0 ==> !IsJsSpace(Trim(s)[0]) && !IsJsSpace(Trim(s)[|Trim(s)| - 1])
  {
    var a := TrimStart(s);
    var t := TrimEnd(a);
    if |t| > 0 {
      assert t == a[..|t|];
      assert t[0] == a[0];
    }
  }

  lemma LowerKeepsSpace(c: char)
    ensures IsJsSpace(LowerChar(c)) <==> IsJsSpace(c)
  {
  }

  lemma TrimFixed(u: string)
    requires |u| > 0 ==> !IsJsSpace(u[0]) && !IsJsSpace(u[|u| - 1])
    ensures Trim(u) == u
  {
    assert TrimStart(u) == u;
  }

  lemma LowerIdempotent(t: string)
    ensures Lower(Lower(t)) == Lower(t)
  {
    var u := Lower(t);
    assert forall k :: 0 <= k < |t| ==> LowerChar(LowerChar(t[k])) == LowerChar(t[k]);
    assert Lower(u) == u;
  }
}
