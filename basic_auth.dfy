/**
 * `BasicAuth.authenticate` (src/component/auth/basic.ts) once the bearer
 * token has been resolved to a user: the route's permissions must all be
 * held by the user, where scoped permissions that carry a `global` scope are
 * flattened into one list first.
 *
 * The resolution of the token (Auth.Resolve) is an input here.
 */
module BasicAuth {
  import opened Js
  import opened Errors
  import Authorize

  /**
   * p occurs in the permission list of some scope.  What `ret.concat(v)`
   * appends is `Authorize.RequiredList(v)`: the elements of an array, else v
   * itself.
   */
  predicate InSomeScope(scopes: map<string, JsValue>, p: JsValue) {
    exists k :: k in scopes && Contains(Authorize.RequiredList(scopes[k]), p)
  }

  /**
   * The private `merge`: concatenate the lists of every scope.  Scopes are
   * visited in an unspecified order, so only membership is promised.
   */
  method MergeScopes(scopes: map<string, JsValue>) returns (ret: seq<JsValue>)
    ensures forall p :: Contains(ret, p) <==> InSomeScope(scopes, p)
  {
    ret := [];
    var names := scopes.Keys;
    while names != {}
      invariant names <= scopes.Keys
      invariant forall p :: Contains(ret, p) <==> exists k :: k in scopes && k !in names && Contains(Authorize.RequiredList(scopes[k]), p)
      decreases names
    {
      var name :| name in names;
      forall p ensures Contains(ret + Authorize.RequiredList(scopes[name]), p) <==> Contains(ret, p) || Contains(Authorize.RequiredList(scopes[name]), p) {
        ContainsConcat(ret, Authorize.RequiredList(scopes[name]), p);
      }
      ret := ret + Authorize.RequiredList(scopes[name]);
      names := names - {name};
    }
  }

  /** `user.permissions || []`. */
  function UserPermissions(user: JsValue): JsValue {
    var up := Get(user, "permissions");
    if Truthy(up) then up else Arr([])
  }

  /**
   * Scoped permissions that are flattened before the search: a non-array
   * with a truthy `global`, which only an object can have.
   */
  predicate Scoped(up: JsValue) {
    up.Obj? && Truthy(Field(up.props, "global"))
  }

  /** Whether the search finds p; None when `indexOf` throws. */
  function Held(up: JsValue, p: JsValue): (r: Option<bool>)
    ensures up.Arr? ==> r == Some(Contains(up.items, p))
  {
    if Scoped(up) then Some(InSomeScope(up.props, p)) else Authorize.Lookup(up, p)
  }

  /** Every one of `ps` is found. */
  predicate HeldAll(up: JsValue, ps: seq<JsValue>) {
    forall i :: 0 <= i < |ps| ==> Held(up, ps[i]) == Some(true)
  }

  /** The entries `for … of` visits; None when the value is not iterable. */
  function Iterated(v: JsValue): Option<seq<JsValue>> {
    match v
    case Arr(items) => Some(items)
    case Str(s) => Some(seq(|s|, i requires 0 <= i < |s| => Str([s[i]])))
    case _ => None
  }

  /** `'' + p[0] + ',' + … + p[n-1]`. */
  function PermissionString(ps: seq<JsValue>): string {
    Join(seq(|ps|, i requires 0 <= i < |ps| => ToStr(ps[i])), ',')
  }

  /** The rejection for a user lacking some of `ps`. */
  function MissingPermission(ps: seq<JsValue>): Exception {
    Fail("insufficient_scope", "Missing required permission " + PermissionString(ps), "system_auth_basic")
  }

  /** The outcome, stated by membership. */
  function Authenticated(resolved: Result<JsValue>, permissions: JsValue): Result<JsValue> {
    if resolved.Err? then resolved
    else
      var user := resolved.value;
      if !Truthy(permissions) || Get(permissions, "length") == Int(0) then Ok(user)
      else if Nullish(user) then Err(TypeError)
      else
        var up := UserPermissions(user);
        match Iterated(permissions)
        case None => Err(TypeError)
        case Some(ps) => Checked(user, up, ps)
  }

  /** The search of each required permission in the user's permissions `up`. */
  function Checked(user: JsValue, up: JsValue, ps: seq<JsValue>): Result<JsValue> {
    if |ps| > 0 && Held(up, ps[0]).None? then Err(TypeError)
    else if HeldAll(up, ps) then Ok(user)
    else Err(MissingPermission(ps))
  }

  /** The permission string loop of basic.ts. */
  method BuildPermissionString(ps: seq<JsValue>) returns (pstr: string)
    ensures pstr == PermissionString(ps)
  {
    pstr := "";
    ghost var strs := seq(|ps|, i requires 0 <= i < |ps| => ToStr(ps[i]));
    var i := 0;
    while i < |ps|
      invariant 0 <= i <= |ps|
      invariant i < |ps| ==> pstr + Join(strs[i..], ',') == Join(strs, ',')
      invariant i == |ps| ==> pstr == Join(strs, ',')
    {
      assert strs[i] == ToStr(ps[i]);
      if i < |ps| - 1 {
        assert strs[i..] == [strs[i]] + strs[i + 1..];
        pstr := pstr + ToStr(ps[i]) + ",";
      } else {
        assert strs[i..] == [strs[i]];
        pstr := pstr + ToStr(ps[i]);
      }
      i := i + 1;
    }
  }

  /** `authenticate` after the token resolution, as written. */
  method Authenticate(resolved: Result<JsValue>, permissions: JsValue) returns (r: Result<JsValue>)
    ensures r == Authenticated(resolved, permissions)
  {
    if resolved.Err? {
      return resolved;
    }
    var user := resolved.value;
    if !Truthy(permissions) || Get(permissions, "length") == Int(0) {
      return Ok(user);
    }
    if Nullish(user) {
      return Err(TypeError);
    }
    var iter := Iterated(permissions);
    if iter.None? {
      return Err(TypeError);
    }
    r := Check(user, UserPermissions(user), iter.value);
  }

  /** The searching loop of `authenticate`, after the scopes are flattened. */
  method Check(user: JsValue, userPermissions: JsValue, ps: seq<JsValue>) returns (r: Result<JsValue>)
    ensures r == Checked(user, userPermissions, ps)
  {
    var search := Searched(userPermissions);
    var found := Authorize.CountFound(search, ps);
    HeldAgrees(search, userPermissions, ps);
    if found.None? {
      return Err(TypeError);
    }
    if found.value {
      return Ok(user);
    }
    r := Missing(ps);
  }

  /** The rejection `authenticate` builds for permissions that are not all held. */
  method Missing(ps: seq<JsValue>) returns (r: Result<JsValue>)
    ensures r == Err(MissingPermission(ps))
  {
    var pstr := BuildPermissionString(ps);
    r := Err(Fail("insufficient_scope", "Missing required permission " + pstr, "system_auth_basic"));
  }

  /** Searching the flattened list answers as `Held` does. */
  lemma HeldAgrees(search: JsValue, userPermissions: JsValue, ps: seq<JsValue>)
    requires forall p :: Authorize.Lookup(search, p) == Held(userPermissions, p)
    ensures Authorize.AllHeld(search, ps) <==> HeldAll(userPermissions, ps)
    ensures |ps| > 0 ==> (Held(userPermissions, ps[0]).None? <==> !(search.Arr? || search.Str?))
  {
    if |ps| > 0 {
      assert Authorize.Lookup(search, ps[0]) == Held(userPermissions, ps[0]);
    }
  }

  /** The list searched: scoped permissions are flattened, others are searched as they are. */
  method Searched(userPermissions: JsValue) returns (search: JsValue)
    ensures forall p :: Authorize.Lookup(search, p) == Held(userPermissions, p)
  {
    search := userPermissions;
    if Scoped(userPermissions) {
      var merged := MergeScopes(userPermissions.props);
      search := Arr(merged);
    }
  }

  /** The joined permission list in the message splits back into the permissions. */
  lemma PermissionStringSplits(ps: seq<JsValue>)
    requires |ps| >= 1
    requires forall i :: 0 <= i < |ps| ==> ',' !in ToStr(ps[i])
    ensures Split(PermissionString(ps), ',') == seq(|ps|, i requires 0 <= i < |ps| => ToStr(ps[i]))
  {
    SplitJoin(seq(|ps|, i requires 0 <= i < |ps| => ToStr(ps[i])), ',');
  }

  /** Without required permissions any resolved user is let through. */
  lemma NoPermissionsRequired(user: JsValue, permissions: JsValue)
    requires !Truthy(permissions) || permissions == Arr([])
    ensures Authenticated(Ok(user), permissions) == Ok(user)
  {
    if permissions == Arr([]) {
      assert Get(Arr([]), "length") == Int(0);
    }
  }

  /** A scoped user passes iff each required permission is listed in some scope. */
  lemma ScopedUser(user: map<string, JsValue>, scopes: map<string, JsValue>, ps: seq<JsValue>)
    requires "permissions" in user && user["permissions"] == Obj(scopes)
    requires "global" in scopes && Truthy(scopes["global"]) && |ps| > 0
    ensures Authenticated(Ok(Obj(user)), Arr(ps)).Ok? <==> forall i :: 0 <= i < |ps| ==> InSomeScope(scopes, ps[i])
    ensures Authenticated(Ok(Obj(user)), Arr(ps)).Err? ==> Authenticated(Ok(Obj(user)), Arr(ps)) == Err(MissingPermission(ps))
  {
    assert Get(Arr(ps), "length") == Int(|ps|);
    assert UserPermissions(Obj(user)) == Obj(scopes);
  }

  /** Basic authentication agrees with authorize.ts for users holding a non-empty array. */
  lemma AgreesWithAuthorize(user: map<string, JsValue>, held: seq<JsValue>, ps: seq<JsValue>)
    requires "permissions" in user && user["permissions"] == Arr(held) && |held| > 0 && |ps| > 0
    ensures Authenticated(Ok(Obj(user)), Arr(ps)).Ok? <==> Authorize.Authorized(Obj(user), Arr(ps)).Ok?
  {
    assert Get(Arr(ps), "length") == Int(|ps|);
    assert Get(Arr(held), "length") == Int(|held|);
    assert UserPermissions(Obj(user)) == Arr(held);
  }
}
