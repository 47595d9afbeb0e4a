/**
 * Selective cloning (`cloneSelective` in src/util/clone.ts; `clone` in
 * src/util/index.ts is the same code): copy the own properties of a source
 * into a fresh object, skipping excluded names and names starting with '$',
 * then copy every property of an optional merge object over the result.
 *
 * None stands for the TypeError `Object.getOwnPropertyNames` throws on a
 * null or undefined source.
 */
module Clone {
  import opened Js

  /** `exclude || []`, wrapped into a one-element list unless it is an array. */
  function ExcludeList(exclude: JsValue): (l: seq<JsValue>)
    ensures !Truthy(exclude) ==> l == []
    ensures exclude.Arr? ==> l == exclude.items
    ensures Truthy(exclude) && !exclude.Arr? ==> l == [exclude]
  {
    if !Truthy(exclude) then [] else if exclude.Arr? then exclude.items else [exclude]
  }

  /** A source property name that is copied: not in the exclude list and not starting with '$'. */
  predicate CopiedFrom(k: string, excludeList: seq<JsValue>) {
    IndexOf(excludeList, Str(k)) == -1 && (|k| == 0 || k[0] != '$')
  }

  /** The same, for the `exclude` argument as given. */
  predicate Copied(k: string, exclude: JsValue) {
    CopiedFrom(k, ExcludeList(exclude))
  }

  /** The merge object's properties, when a merge object is given. */
  function MergeProps(merge: JsValue): map<string, JsValue> {
    if Truthy(merge) then OwnProps(merge) else map[]
  }

  /** The value `cloneSelective(source, exclude, merge)` returns. */
  function Cloned(source: JsValue, exclude: JsValue, merge: JsValue): Option<JsValue> {
    ClonedFrom(source, ExcludeList(exclude), merge)
  }

  /** The clone for the normalised exclude list. */
  function ClonedFrom(source: JsValue, excludeList: seq<JsValue>, merge: JsValue): Option<JsValue> {
    if Nullish(source) then None
    else
      var sp := OwnProps(source);
      Some(Obj((map k | k in sp && CopiedFrom(k, excludeList) :: sp[k]) + MergeProps(merge)))
  }

  /** The two loops of clone.ts writing into a fresh object. */
  method CloneSelective(source: JsValue, exclude: JsValue, merge: JsValue) returns (r: Option<JsValue>)
    ensures r == Cloned(source, exclude, merge)
  {
    if Nullish(source) {
      return None;
    }
    var clone := CopySelected(OwnProps(source), ExcludeList(exclude));
    if Truthy(merge) {
      clone := Overlay(clone, OwnProps(merge));
    } else {
      assert clone + MergeProps(merge) == clone;
    }
    r := Some(Obj(clone));
  }

  /** The first loop: copy the names that are neither excluded nor '$'-prefixed. */
  method CopySelected(sp: map<string, JsValue>, excludeList: seq<JsValue>) returns (clone: map<string, JsValue>)
    ensures clone == map k | k in sp && CopiedFrom(k, excludeList) :: sp[k]
  {
    clone := map[];
    var names := sp.Keys;
    while names != {}
      invariant names <= sp.Keys
      invariant forall k :: k in clone <==> k in sp && k !in names && CopiedFrom(k, excludeList)
      invariant forall k :: k in clone ==> clone[k] == sp[k]
      decreases names
    {
      var name :| name in names;
      if IndexOf(excludeList, Str(name)) == -1 && (|name| == 0 || name[0] != '$') {
        clone := clone[name := sp[name]];
      }
      names := names - {name};
    }
  }

  /** The second loop: every merge property overwrites. */
  method Overlay(clone: map<string, JsValue>, mp: map<string, JsValue>) returns (r: map<string, JsValue>)
    ensures r == clone + mp
  {
    r := clone;
    var names := mp.Keys;
    while names != {}
      invariant names <= mp.Keys
      invariant forall k :: k in r <==> k in clone || (k in mp && k !in names)
      invariant forall k :: k in r ==> r[k] == if k in mp && k !in names then mp[k] else clone[k]
      decreases names
    {
      var name :| name in names;
      r := r[name := mp[name]];
      names := names - {name};
    }
  }

  /**
   * A name is in the clone iff it is a copied source name or a merge name;
   * merge values win, including over excluded and '$' names.
   */
  lemma ClonedKey(source: JsValue, exclude: JsValue, merge: JsValue, k: string)
    requires !Nullish(source)
    ensures Cloned(source, exclude, merge).Some? && Cloned(source, exclude, merge).value.Obj?
    ensures k in Cloned(source, exclude, merge).value.props <==>
      (k in OwnProps(source) && Copied(k, exclude)) || k in MergeProps(merge)
    ensures k in MergeProps(merge) ==> Cloned(source, exclude, merge).value.props[k] == MergeProps(merge)[k]
    ensures k !in MergeProps(merge) && k in Cloned(source, exclude, merge).value.props ==>
      Cloned(source, exclude, merge).value.props[k] == OwnProps(source)[k]
  {
  }

  /** A single excluded name behaves exactly like a one-element exclude list. */
  lemma ExcludeSingleton(source: JsValue, name: JsValue, merge: JsValue)
    requires Truthy(name) && !name.Arr?
    ensures Cloned(source, name, merge) == Cloned(source, Arr([name]), merge)
  {
    assert ExcludeList(name) == ExcludeList(Arr([name]));
  }

  /** Names starting with '$' are never copied from the source. */
  lemma DollarNamesDropped(source: JsValue, exclude: JsValue, k: string)
    requires !Nullish(source) && |k| > 0 && k[0] == '$'
    ensures k in Cloned(source, exclude, Undefined).value.props <==> false
  {
  }
}
