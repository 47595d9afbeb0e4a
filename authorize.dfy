/**
 * The required-permission check of src/util/authorize.ts: a user passes when
 * every required permission occurs in the user's `permissions` list.
 */
module Authorize {
  import opened Js
  import opened Errors

  /** A single required permission is treated as a one-element list. */
  function RequiredList(required: JsValue): (l: seq<JsValue>)
    ensures required.Arr? ==> l == required.items
    ensures !required.Arr? ==> l == [required]
  {
    if required.Arr? then required.items else [required]
  }

  /**
   * `perms.indexOf(p) !== -1`: element search on an array, substring search
   * on a string; None where `indexOf` is not a method of the value, so the
   * call throws a TypeError.
   */
  function Lookup(perms: JsValue, p: JsValue): (r: Option<bool>)
    ensures r.Some? <==> perms.Arr? || perms.Str?
    ensures perms.Arr? ==> r == Some(Contains(perms.items, p))
  {
    match perms
    case Arr(items) => Some(Contains(items, p))
    case Str(s) => Some(HasSubstring(s, ToStr(p)))
    case _ => None
  }

  /** No user, no permissions, or a permission list of length 0. */
  predicate Unauthenticated(user: JsValue) {
    !Truthy(user) || !Truthy(Get(user, "permissions")) || Get(Get(user, "permissions"), "length") == Int(0)
  }

  const NotAuthorised: Exception := Fail("auth_error", "Not authorised", "8640559586")
  const InsufficientPrivilege: Exception := Fail("insufficient_scope", "Insufficient privilege", "9625573689")

  /** Every entry of `l` is found in `perms`. */
  predicate AllHeld(perms: JsValue, l: seq<JsValue>) {
    forall i :: 0 <= i < |l| ==> Lookup(perms, l[i]) == Some(true)
  }

  /** The outcome of the check, stated without the counting loop. */
  function Authorized(user: JsValue, required: JsValue): Result<()> {
    if Unauthenticated(user) then Err(NotAuthorised)
    else
      var perms := Get(user, "permissions");
      var l := RequiredList(required);
      if |l| > 0 && !(perms.Arr? || perms.Str?) then Err(TypeError)
      else if AllHeld(perms, l) then Ok(())
      else Err(InsufficientPrivilege)
  }

  /** The check as written: count the required entries that are found. */
  method Authorize(user: JsValue, required: JsValue) returns (r: Result<()>)
    ensures r == Authorized(user, required)
  {
    if !Truthy(user) || !Truthy(Get(user, "permissions")) || Get(Get(user, "permissions"), "length") == Int(0) {
      return Err(NotAuthorised);
    }
    var permissions := RequiredList(required);
    var found := CountFound(Get(user, "permissions"), permissions);
    if found.None? {
      return Err(TypeError);
    }
    if !found.value {
      return Err(InsufficientPrivilege);
    }
    return Ok(());
  }

  /**
   * The counting loop: `count` reaches the list's length exactly when every
   * entry is found.  None when the first search throws.
   */
  method CountFound(userPermissions: JsValue, permissions: seq<JsValue>) returns (r: Option<bool>)
    ensures r.None? <==> |permissions| > 0 && !(userPermissions.Arr? || userPermissions.Str?)
    ensures r.Some? ==> r.value == AllHeld(userPermissions, permissions)
  {
    var count := 0;
    var i := 0;
    while i < |permissions|
      invariant 0 <= i <= |permissions|
      invariant i > 0 ==> userPermissions.Arr? || userPermissions.Str?
      invariant 0 <= count <= i
      invariant count == i <==> AllHeld(userPermissions, permissions[..i])
    {
      var found := Lookup(userPermissions, permissions[i]);
      if found.None? {
        return None;
      }
      if found.value {
        count := count + 1;
      }
      assert permissions[..i + 1] == permissions[..i] + [permissions[i]];
      i := i + 1;
    }
    assert permissions[..i] == permissions;
    return Some(count == |permissions|);
  }

  /** An authenticated user with an empty requirement list always passes. */
  lemma EmptyRequirement(user: JsValue)
    ensures Authorized(user, Arr([])) == (if Unauthenticated(user) then Err(NotAuthorised) else Ok(()))
  {
  }

  /** Missing users or permissions are rejected before any scope is looked at. */
  lemma AuthErrorFirst(user: JsValue, required: JsValue)
    requires Unauthenticated(user)
    ensures Authorized(user, required).Err? && IsError(Authorized(user, required).ex, "auth_error")
    ensures HasTrace(Authorized(user, required).ex, "8640559586")
  {
  }

  /**
   * For a user with a non-empty permission array the check passes exactly
   * when every required entry is an element of it.
   */
  lemma ArrayPermissions(user: JsValue, ps: seq<JsValue>, required: seq<JsValue>)
    requires user.Obj? && "permissions" in user.props && user.props["permissions"] == Arr(ps) && |ps| > 0
    ensures Authorized(user, Arr(required)).Ok? <==> forall i :: 0 <= i < |required| ==> Contains(ps, required[i])
    ensures Authorized(user, Arr(required)).Err? ==> IsError(Authorized(user, Arr(required)).ex, "insufficient_scope")
  {
    assert Get(user, "permissions") == Arr(ps);
    assert Get(Arr(ps), "length") == Int(|ps|);
  }

  /** Dropping requirements never turns a pass into a failure. */
  lemma FewerRequirements(user: JsValue, required: seq<JsValue>, fewer: seq<JsValue>)
    requires forall i :: 0 <= i < |fewer| ==> Contains(required, fewer[i])
    requires Authorized(user, Arr(required)).Ok?
    ensures Authorized(user, Arr(fewer)).Ok?
  {
    var perms := Get(user, "permissions");
    forall i | 0 <= i < |fewer| ensures Lookup(perms, fewer[i]) == Some(true) {
      var j :| 0 <= j < |required| && StrictEquals(required[j], fewer[i]);
      assert Lookup(perms, required[j]) == Some(true);
    }
    if |fewer| > 0 {
      var j :| 0 <= j < |required| && StrictEquals(required[j], fewer[0]);
      assert |required| > 0;
    }
  }
}
