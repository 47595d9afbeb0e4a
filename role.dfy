/**
 * The permission algebra of the `Role` component (src/component/role.ts):
 * the choice between lookup by identifier and by code, the duplicate-free
 * union of the permissions of a set of roles (globally and per scope), and
 * the validation and projection of role records.
 *
 * The `_roles` collection is a parameter: the records in the order the store
 * returns them.  A query `{_uuid: {$in: ids}}` selects the records whose
 * identifier is listed, in that order.
 */
module Role {
  import opened Js
  import opened Errors
  import Strip

  // ---------------------------------------------------------------------
  // Identifier or code

  predicate IsHex(c: char) {
    '0' <= c <= '9' || 'a' <= c <= 'f' || 'A' <= c <= 'F'
  }

  /** The character the UUID pattern accepts at position i. */
  predicate UuidChar(i: int, c: char) {
    if i == 8 || i == 13 || i == 18 || i == 23 then c == '-'
    else if i == 14 then '1' <= c <= '5'
    else if i == 19 then c == '8' || c == '9' || c == 'a' || c == 'b' || c == 'A' || c == 'B'
    else IsHex(c)
  }

  /**
   * The case-insensitive pattern of role.ts: the 8-4-4-4-12 hexadecimal
   * layout of RFC 4122 with a version digit 1 to 5 and variant 8, 9, a or b.
   */
  predicate IsUuid(s: string) {
    |s| == 36 && forall i :: 0 <= i < 36 ==> UuidChar(i, s[i])
  }

  /** The `where` of `get`: by `_uuid` for a UUID, else by `code`. */
  function Criteria(roleIdOrCode: string): (c: map<string, JsValue>)
    ensures IsUuid(roleIdOrCode) ==> c == map["_uuid" := Str(roleIdOrCode)]
    ensures !IsUuid(roleIdOrCode) ==> c == map["code" := Str(roleIdOrCode)]
    ensures "_uuid" in c <==> IsUuid(roleIdOrCode)
  {
    if IsUuid(roleIdOrCode) then map["_uuid" := Str(roleIdOrCode)] else map["code" := Str(roleIdOrCode)]
  }

  /** `update` and `remove` first look the role up (by code) unless given a UUID. */
  predicate NeedsLookup(roleIdOrCode: string) {
    !IsUuid(roleIdOrCode)
  }

  /** Codes without a dash are never taken for identifiers, by get, update or remove. */
  lemma CodesAreNotIds(code: string)
    requires '-' !in code
    ensures Criteria(code) == map["code" := Str(code)] && NeedsLookup(code)
  {
    if |code| == 36 {
      assert !UuidChar(8, code[8]);
    }
  }

  /** The three operations agree on which strings are identifiers. */
  lemma SameTest(roleIdOrCode: string)
    ensures "_uuid" in Criteria(roleIdOrCode) <==> !NeedsLookup(roleIdOrCode)
  {
  }

  // ---------------------------------------------------------------------
  // Duplicate-free union in first-occurrence order

  /** Append each element of ps that is not yet present (the `indexOf === -1` then `push` loop). */
  function AddNew(acc: seq<string>, ps: seq<string>): seq<string>
    decreases |ps|
  {
    if |ps| == 0 then acc
    else AddNew(if ps[0] in acc then acc else acc + [ps[0]], ps[1..])
  }

  predicate NoDuplicates(s: seq<string>) {
    forall i, j :: 0 <= i < j < |s| ==> s[i] != s[j]
  }

  /** Position of the first occurrence of x. */
  function Pos(s: seq<string>, x: string): (k: nat)
    requires x in s
    ensures k < |s| && s[k] == x && x !in s[..k]
  {
    if s[0] == x then 0 else 1 + Pos(s[1..], x)
  }

  /**
   * AddNew keeps the accumulator as a prefix, adds exactly the missing
   * elements, never duplicates, and adds them in order of first occurrence.
   */
  lemma AddNewProperties(acc: seq<string>, ps: seq<string>)
    requires NoDuplicates(acc)
    ensures acc <= AddNew(acc, ps)
    ensures NoDuplicates(AddNew(acc, ps))
    ensures forall x :: x in AddNew(acc, ps) <==> x in acc || x in ps
    ensures forall i, j :: |acc| <= i < j < |AddNew(acc, ps)| ==>
      AddNew(acc, ps)[i] in ps && AddNew(acc, ps)[j] in ps &&
      Pos(ps, AddNew(acc, ps)[i]) < Pos(ps, AddNew(acc, ps)[j])
  {
    AddNewKeeps(acc, ps);
    AddNewNoDuplicates(acc, ps);
    AddNewOrder(acc, ps);
  }

  /** The accumulator stays a prefix, and the elements are those of both. */
  lemma {:induction false} AddNewKeeps(acc: seq<string>, ps: seq<string>)
    ensures acc <= AddNew(acc, ps)
    ensures forall x :: x in AddNew(acc, ps) <==> x in acc || x in ps
    decreases |ps|
  {
    if |ps| > 0 {
      var next := if ps[0] in acc then acc else acc + [ps[0]];
      assert AddNew(acc, ps) == AddNew(next, ps[1..]);
      AddNewKeeps(next, ps[1..]);
      assert forall x :: x in ps <==> x == ps[0] || x in ps[1..];
    }
  }

  lemma {:induction false} AddNewNoDuplicates(acc: seq<string>, ps: seq<string>)
    requires NoDuplicates(acc)
    ensures NoDuplicates(AddNew(acc, ps))
    decreases |ps|
  {
    if |ps| > 0 {
      var next := if ps[0] in acc then acc else acc + [ps[0]];
      assert AddNew(acc, ps) == AddNew(next, ps[1..]);
      AddNewNoDuplicates(next, ps[1..]);
    }
  }

  /** The added elements come in order of their first occurrence in ps. */
  lemma {:induction false} AddNewOrder(acc: seq<string>, ps: seq<string>)
    requires NoDuplicates(acc)
    ensures forall i, j :: |acc| <= i < j < |AddNew(acc, ps)| ==>
      AddNew(acc, ps)[i] in ps && AddNew(acc, ps)[j] in ps &&
      Pos(ps, AddNew(acc, ps)[i]) < Pos(ps, AddNew(acc, ps)[j])
    decreases |ps|
  {
    if |ps| > 0 {
      var next := if ps[0] in acc then acc else acc + [ps[0]];
      var tail := ps[1..];
      var r := AddNew(acc, ps);
      assert r == AddNew(next, tail);
      assert NoDuplicates(next);
      AddNewOrder(next, tail);
      AddNewKeeps(next, tail);
      AddNewNoDuplicates(next, tail);
      PastPrefixFresh(next, r);
      assert forall x :: x in tail ==> x in ps;
      forall x | x in tail && x != ps[0] ensures Pos(ps, x) == 1 + Pos(tail, x) {
      }
      forall i, j | |acc| <= i < j < |r|
        ensures r[i] in ps && r[j] in ps && Pos(ps, r[i]) < Pos(ps, r[j])
      {
        if ps[0] !in acc && i == |acc| {
          assert r[i] == ps[0];
          assert r[j] != ps[0];
        } else {
          assert r[i] != ps[0] && r[j] != ps[0];
        }
      }
    } else {
      assert AddNew(acc, ps) == acc;
    }
  }

  /** In a duplicate-free sequence, the elements after a prefix are not in it. */
  lemma PastPrefixFresh(prefix: seq<string>, s: seq<string>)
    requires prefix <= s && NoDuplicates(s)
    ensures forall j :: |prefix| <= j < |s| ==> s[j] !in prefix
  {
  }

  /** The concatenated permission lists of some role records. */
  function AllPermissions(found: seq<RoleRecord>): seq<string> {
    if |found| == 0 then [] else AllPermissions(found[..|found| - 1]) + found[|found| - 1].permissions
  }

  /** A role record as the store returns it with `filter: ['permissions', '_uuid']`. */
  datatype RoleRecord = RoleRecord(uuid: string, permissions: seq<string>)

  /** `find('_roles', {where: {_uuid: {$in: ids}}})`. */
  function Select(store: seq<RoleRecord>, ids: seq<string>): (r: seq<RoleRecord>)
    ensures forall k :: 0 <= k < |r| ==> r[k].uuid in ids
    ensures forall x :: x in r <==> x in store && x.uuid in ids
  {
    if |store| == 0 then []
    else Select(store[..|store| - 1], ids) + (if store[|store| - 1].uuid in ids then [store[|store| - 1]] else [])
  }

  /** The permission set of a list of role identifiers: the union over the found roles. */
  function PermissionSet(roles: Option<seq<string>>, store: seq<RoleRecord>): seq<string> {
    if roles.None? || |roles.value| == 0 then []
    else AddNew([], AllPermissions(Select(store, roles.value)))
  }

  /** The loops of `getPermissionSet`. */
  method GetPermissionSet(roles: Option<seq<string>>, store: seq<RoleRecord>) returns (permissions: seq<string>)
    ensures permissions == PermissionSet(roles, store)
  {
    if roles.None? || |roles.value| == 0 {
      return [];
    }
    var foundRoles := Select(store, roles.value);
    permissions := [];
    var i := 0;
    while i < |foundRoles|
      invariant 0 <= i <= |foundRoles|
      invariant permissions == AddNew([], AllPermissions(foundRoles[..i]))
    {
      permissions := PushNew(permissions, foundRoles[i].permissions);
      AddNewAppend([], AllPermissions(foundRoles[..i]), foundRoles[i].permissions);
      assert foundRoles[..i + 1][..i] == foundRoles[..i];
      i := i + 1;
    }
    assert foundRoles[..i] == foundRoles;
  }

  /** The inner loop: push each permission that is not yet in the list. */
  method PushNew(acc: seq<string>, ps: seq<string>) returns (r: seq<string>)
    ensures r == AddNew(acc, ps)
  {
    r := acc;
    var j := 0;
    while j < |ps|
      invariant 0 <= j <= |ps|
      invariant AddNew(r, ps[j..]) == AddNew(acc, ps)
    {
      assert ps[j..][1..] == ps[j + 1..];
      if ps[j] !in r {
        r := r + [ps[j]];
      }
      j := j + 1;
    }
  }

  /** One step of the fold. */
  lemma AddNewSingle(acc: seq<string>, x: string)
    ensures AddNew(acc, [x]) == if x in acc then acc else acc + [x]
  {
    assert [x][1..] == [];
  }

  /** Folding over a concatenation is folding twice. */
  lemma {:induction false} AddNewAppend(acc: seq<string>, a: seq<string>, b: seq<string>)
    ensures AddNew(acc, a + b) == AddNew(AddNew(acc, a), b)
    decreases |a|
  {
    if |a| > 0 {
      assert (a + b)[0] == a[0];
      assert (a + b)[1..] == a[1..] + b;
      AddNewAppend(if a[0] in acc then acc else acc + [a[0]], a[1..], b);
    } else {
      assert a + b == b;
    }
  }

  /** Membership in the concatenation is membership in one of the found roles. */
  lemma {:induction false} AllPermissionsMember(found: seq<RoleRecord>, p: string)
    ensures p in AllPermissions(found) <==> exists k :: 0 <= k < |found| && p in found[k].permissions
    decreases |found|
  {
    if |found| > 0 {
      var init := found[..|found| - 1];
      AllPermissionsMember(init, p);
      if p in AllPermissions(init) {
        var k :| 0 <= k < |init| && p in init[k].permissions;
        assert found[k] == init[k];
      }
      if exists k :: 0 <= k < |found| && p in found[k].permissions {
        var k :| 0 <= k < |found| && p in found[k].permissions;
        if k < |found| - 1 {
          assert init[k] == found[k];
        }
      }
    }
  }

  /**
   * The permission set is duplicate-free, holds exactly the permissions of
   * the stored roles that are listed, and lists them in first-occurrence
   * order.
   */
  lemma PermissionSetProperties(roles: seq<string>, store: seq<RoleRecord>)
    requires |roles| > 0
    ensures NoDuplicates(PermissionSet(Some(roles), store))
    ensures forall p :: p in PermissionSet(Some(roles), store) <==>
      exists x :: x in store && x.uuid in roles && p in x.permissions
    ensures var all := AllPermissions(Select(store, roles)); var r := PermissionSet(Some(roles), store);
      forall i, j :: 0 <= i < j < |r| ==> r[i] in all && r[j] in all && Pos(all, r[i]) < Pos(all, r[j])
  {
    var found := Select(store, roles);
    AddNewProperties([], AllPermissions(found));
    forall p ensures p in PermissionSet(Some(roles), store) <==> exists x :: x in store && x.uuid in roles && p in x.permissions {
      AllPermissionsMember(found, p);
      if exists x :: x in store && x.uuid in roles && p in x.permissions {
        var x :| x in store && x.uuid in roles && p in x.permissions;
        assert x in found;
        var k :| 0 <= k < |found| && found[k] == x;
      }
    }
  }

  /** No roles: no permissions, whatever the store holds. */
  lemma NoRolesNoPermissions(store: seq<RoleRecord>)
    ensures PermissionSet(None, store) == [] && PermissionSet(Some([]), store) == []
  {
  }

  // ---------------------------------------------------------------------
  // Scoped permission sets

  /** The scopes under which a role is listed. */
  predicate ListedUnder(scoped: map<string, seq<string>>, role: string, scope: string) {
    scope in scoped && role in scoped[scope]
  }

  /**
   * `getScopedPermissionSet`: the role index, the criteria list and, per
   * scope, the duplicate-free union of the permissions of the found roles
   * listed under it.  Scopes are visited in an unspecified order, so the
   * per-scope lists are specified by membership.
   */
  method GetScopedPermissionSet(scoped: map<string, seq<string>>, store: seq<RoleRecord>)
    returns (permissions: map<string, seq<string>>)
    ensures forall scope :: scope in permissions ==> NoDuplicates(permissions[scope])
    ensures forall scope, p :: scope in permissions && p in permissions[scope] ==>
      exists x :: x in store && ListedUnder(scoped, x.uuid, scope) && p in x.permissions
    ensures forall x, scope, p :: x in store && ListedUnder(scoped, x.uuid, scope) && p in x.permissions ==>
      scope in permissions && p in permissions[scope]
  {
    var index, criteria := IndexScopes(scoped);
    var foundRoles := Select(store, criteria);
    permissions := map[];
    var i := 0;
    while i < |foundRoles|
      invariant 0 <= i <= |foundRoles|
      invariant ScopedDistinct(permissions) && Sourced(permissions, scoped, store)
      invariant forall k, scope, p :: 0 <= k < i && ListedUnder(scoped, foundRoles[k].uuid, scope) && p in foundRoles[k].permissions ==>
        scope in permissions && p in permissions[scope]
    {
      var role := foundRoles[i];
      assert role in store && role.uuid in index;
      ghost var before := permissions;
      permissions := AddRole(permissions, role, index[role.uuid], scoped, store);
      forall k, scope, p | 0 <= k < i + 1 && ListedUnder(scoped, foundRoles[k].uuid, scope) && p in foundRoles[k].permissions
        ensures scope in permissions && p in permissions[scope]
      {
        if k < i {
          assert scope in before && p in before[scope];
        }
      }
      i := i + 1;
    }
    forall x, scope, p | x in store && ListedUnder(scoped, x.uuid, scope) && p in x.permissions
      ensures scope in permissions && p in permissions[scope]
    {
      assert x.uuid in criteria;
      assert x in foundRoles;
      var k :| 0 <= k < |foundRoles| && foundRoles[k] == x;
    }
  }

  /**
   * The first loop nest: `index[role]` lists the scopes a role appears
   * under, `criteria` every listed role once.
   */
  method IndexScopes(scoped: map<string, seq<string>>) returns (index: map<string, seq<string>>, criteria: seq<string>)
    ensures NoDuplicates(criteria)
    ensures forall role :: role in criteria <==> exists scope :: ListedUnder(scoped, role, scope)
    ensures forall role :: role in criteria ==> role in index
    ensures forall role, scope :: role in index && scope in index[role] <==> ListedUnder(scoped, role, scope)
  {
    index := map[];
    criteria := [];
    var names := scoped.Keys;
    while names != {}
      invariant names <= scoped.Keys
      invariant NoDuplicates(criteria)
      invariant forall role :: role in criteria <==> role in index
      invariant forall role :: role in criteria <==> exists scope :: scope !in names && ListedUnder(scoped, role, scope)
      invariant forall role, scope :: role in index && scope in index[role] <==> scope !in names && ListedUnder(scoped, role, scope)
      decreases names
    {
      var scope :| scope in names;
      ghost var oldIndex, oldCriteria := index, criteria;
      index, criteria := IndexScope(index, criteria, scope, scoped[scope]);
      names := names - {scope};
      forall role ensures role in criteria <==> exists s :: s !in names && ListedUnder(scoped, role, s) {
        if role in scoped[scope] {
          assert ListedUnder(scoped, role, scope);
        }
      }
    }
  }

  /** The inner loop over the roles listed under one scope. */
  method IndexScope(index0: map<string, seq<string>>, criteria0: seq<string>, scope: string, list: seq<string>)
    returns (index: map<string, seq<string>>, criteria: seq<string>)
    requires NoDuplicates(criteria0)
    requires forall role :: role in criteria0 <==> role in index0
    ensures NoDuplicates(criteria)
    ensures forall role :: role in criteria <==> role in index
    ensures forall role :: role in criteria <==> role in criteria0 || role in list
    ensures forall role, s :: role in index && s in index[role] <==>
      (role in index0 && s in index0[role]) || (s == scope && role in list)
  {
    index, criteria := index0, criteria0;
    var j := 0;
    while j < |list|
      invariant 0 <= j <= |list|
      invariant NoDuplicates(criteria)
      invariant forall role :: role in criteria <==> role in index
      invariant forall role :: role in criteria <==> role in criteria0 || role in list[..j]
      invariant forall role, s :: role in index && s in index[role] <==>
        (role in index0 && s in index0[role]) || (s == scope && role in list[..j])
    {
      var role := list[j];
      var entry := if role in index then index[role] else [];
      if scope !in entry {
        entry := entry + [scope];
      }
      index := index[role := entry];
      if role !in criteria {
        criteria := criteria + [role];
      }
      assert list[..j + 1] == list[..j] + [role];
      j := j + 1;
    }
    assert list[..j] == list;
  }

  /** Every per-scope list is duplicate-free. */
  predicate ScopedDistinct(r: map<string, seq<string>>) {
    forall scope :: scope in r ==> NoDuplicates(r[scope])
  }

  /** Every permission listed for a scope comes from a stored role listed under that scope. */
  predicate Sourced(r: map<string, seq<string>>, scoped: map<string, seq<string>>, store: seq<RoleRecord>) {
    forall scope, p :: scope in r && p in r[scope] ==>
      exists x :: x in store && ListedUnder(scoped, x.uuid, scope) && p in x.permissions
  }

  /** r lists, per scope, at least what r0 lists. */
  predicate Covers(r: map<string, seq<string>>, r0: map<string, seq<string>>) {
    forall scope, p :: scope in r0 && p in r0[scope] ==> scope in r && p in r[scope]
  }

  /** The second loop nest for one found role: add its permissions to each of its scopes. */
  method AddRole(permissions: map<string, seq<string>>, role: RoleRecord, scopes: seq<string>,
                 ghost scoped: map<string, seq<string>>, ghost store: seq<RoleRecord>)
    returns (r: map<string, seq<string>>)
    requires role in store
    requires forall s :: s in scopes ==> ListedUnder(scoped, role.uuid, s)
    requires forall s :: ListedUnder(scoped, role.uuid, s) ==> s in scopes
    requires ScopedDistinct(permissions) && Sourced(permissions, scoped, store)
    ensures ScopedDistinct(r) && Sourced(r, scoped, store) && Covers(r, permissions)
    ensures forall scope, p :: ListedUnder(scoped, role.uuid, scope) && p in role.permissions ==> scope in r && p in r[scope]
  {
    r := permissions;
    var j := 0;
    while j < |role.permissions|
      invariant 0 <= j <= |role.permissions|
      invariant ScopedDistinct(r) && Sourced(r, scoped, store) && Covers(r, permissions)
      invariant forall scope, p :: scope in scopes && p in role.permissions[..j] ==> scope in r && p in r[scope]
    {
      var permission := role.permissions[j];
      ghost var before := r;
      r := AddToScopes(r, permission, scopes, role, scoped, store);
      assert role.permissions[..j + 1] == role.permissions[..j] + [permission];
      forall scope, p | scope in scopes && p in role.permissions[..j + 1] ensures scope in r && p in r[scope] {
        if p != permission {
          assert scope in before && p in before[scope];
        }
      }
      j := j + 1;
    }
    assert role.permissions[..j] == role.permissions;
  }

  /** The inner loop: one permission of the role onto each of its scopes. */
  method AddToScopes(r0: map<string, seq<string>>, permission: string, scopes: seq<string>,
                     ghost role: RoleRecord, ghost scoped: map<string, seq<string>>, ghost store: seq<RoleRecord>)
    returns (r: map<string, seq<string>>)
    requires role in store && permission in role.permissions
    requires forall s :: s in scopes ==> ListedUnder(scoped, role.uuid, s)
    requires ScopedDistinct(r0) && Sourced(r0, scoped, store)
    ensures ScopedDistinct(r) && Sourced(r, scoped, store) && Covers(r, r0)
    ensures forall scope :: scope in scopes ==> scope in r && permission in r[scope]
  {
    r := r0;
    var k := 0;
    while k < |scopes|
      invariant 0 <= k <= |scopes|
      invariant ScopedDistinct(r) && Sourced(r, scoped, store) && Covers(r, r0)
      invariant forall scope :: scope in scopes[..k] ==> scope in r && permission in r[scope]
    {
      var scope := scopes[k];
      var list := if scope in r then r[scope] else [];
      if permission !in list {
        list := list + [permission];
      }
      ScopePushed(r, r0, scope, permission, list, role, scoped, store);
      r := r[scope := list];
      assert scopes[..k + 1] == scopes[..k] + [scope];
      k := k + 1;
    }
    assert scopes[..k] == scopes;
  }

  /** Writing the scope's list with the permission pushed keeps the three invariants. */
  lemma ScopePushed(r: map<string, seq<string>>, r0: map<string, seq<string>>, scope: string, permission: string,
                    list: seq<string>, role: RoleRecord, scoped: map<string, seq<string>>, store: seq<RoleRecord>)
    requires role in store && permission in role.permissions && ListedUnder(scoped, role.uuid, scope)
    requires ScopedDistinct(r) && Sourced(r, scoped, store) && Covers(r, r0)
    requires var prior := if scope in r then r[scope] else [];
      list == if permission in prior then prior else prior + [permission]
    ensures var r' := r[scope := list];
      ScopedDistinct(r') && Sourced(r', scoped, store) && Covers(r', r0) && permission in r'[scope]
  {
    var r' := r[scope := list];
    var prior := if scope in r then r[scope] else [];
    assert forall p :: p in list ==> p in prior || p == permission;
    forall s, p | s in r' && p in r'[s]
      ensures exists x :: x in store && ListedUnder(scoped, x.uuid, s) && p in x.permissions
    {
      if s == scope && p == permission {
        assert role in store && ListedUnder(scoped, role.uuid, s) && p in role.permissions;
      }
    }
  }

  // ---------------------------------------------------------------------
  // Validation and projection

  /** `validateRole`: a role needs data and a name. */
  function ValidateRole(role: JsValue): (r: Result<()>)
    ensures r.Ok? <==> Truthy(role) && Truthy(Get(role, "name"))
    ensures !Truthy(role) ==> r == Err(Fail("auth_error", "Role contains no data", "5067072462"))
    ensures Truthy(role) && !Truthy(Get(role, "name")) ==> r == Err(Fail("auth_error", "Missing role name", "5308024757"))
  {
    if !Truthy(role) then Err(Fail("auth_error", "Role contains no data", "5067072462"))
    else if !Truthy(Get(role, "name")) then Err(Fail("auth_error", "Missing role name", "5308024757"))
    else Ok(())
  }

  const RoleFields: set<string> := {"name", "code", "parent", "permissions", "description", "status", "context"}

  /** `sanitiseRole`: seven fields, status defaulting to "active", then strip. */
  function SanitiseRole(data: JsValue): Result<JsValue> {
    if Nullish(data) then Err(TypeError)
    else
      Ok(Strip.Stripped(Obj(RoleProjection(OwnProps(data)))))
  }

  /** The seven fields read from the own properties `own`, status defaulting to "active". */
  function RoleProjection(own: map<string, JsValue>): map<string, JsValue> {
    var status := Field(own, "status");
    (map k | k in RoleFields :: Field(own, k))["status" := if Truthy(status) then status else Str("active")]
  }

  /**
   * A sanitised role holds only role fields, never a falsy value other than
   * false or 0, always a status, and the given values unchanged.
   */
  lemma SanitiseRoleProperties(data: JsValue)
    requires !Nullish(data)
    ensures SanitiseRole(data).Ok? && SanitiseRole(data).value.Obj?
    ensures SanitiseRole(data).value.props.Keys <= RoleFields
    ensures forall k :: k in SanitiseRole(data).value.props ==> Strip.Kept(SanitiseRole(data).value.props[k])
    ensures forall k :: k in SanitiseRole(data).value.props && k != "status" ==>
      SanitiseRole(data).value.props[k] == Get(data, k)
    ensures "status" in SanitiseRole(data).value.props
    ensures SanitiseRole(data).value.props["status"] ==
      (if Truthy(Get(data, "status")) then Get(data, "status") else Str("active"))
  {
    var own := OwnProps(data);
    assert SanitiseRole(data) == Ok(Obj(Strip.KeptMap(RoleProjection(own))));
    ProjectionKept(own);
    assert forall k :: Get(data, k) == Field(own, k);
  }

  /** The stripped projection of some own properties. */
  lemma ProjectionKept(own: map<string, JsValue>)
    ensures var m := Strip.KeptMap(RoleProjection(own));
      && m.Keys <= RoleFields
      && (forall k :: k in m ==> Strip.Kept(m[k]))
      && (forall k :: k in m && k != "status" ==> m[k] == Field(own, k))
      && "status" in m
      && m["status"] == (if Truthy(Field(own, "status")) then Field(own, "status") else Str("active"))
  {
    var status := Field(own, "status");
    var v := if Truthy(status) then status else Str("active");
    var fields := map k | k in RoleFields :: Field(own, k);
    assert RoleProjection(own) == fields["status" := v];
    KeptOverride(fields, "status", v);
    assert "status" in RoleFields;
  }

  /** Stripping a map with one kept entry overridden keeps that entry. */
  lemma KeptOverride(fields: map<string, JsValue>, key: string, v: JsValue)
    requires Strip.Kept(v)
    ensures var m := Strip.KeptMap(fields[key := v]);
      && key in m && m[key] == v && m.Keys <= fields.Keys + {key}
      && (forall k :: k in m ==> Strip.Kept(m[k]))
      && (forall k :: k in m && k != key ==> m[k] == fields[k])
  {
    Strip.KeptMapFacts(fields[key := v]);
  }
}