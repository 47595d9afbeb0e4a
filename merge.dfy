/**
 * The recursive deep merge of src/util/merge.ts: every own property of
 * `source` is written into `dest`, except that where `dest` already holds a
 * truthy value of type object the merge descends into it instead.
 *
 * The model works on values: the merged `dest` is returned rather than
 * updated in place.  None stands for the TypeError thrown when `source` is
 * null or undefined, or when `dest` is and `source` has properties.
 */
module Merge {
  import opened Js

  /** A dest value merge.ts descends into: truthy with `typeof` "object". */
  predicate Nested(v: JsValue) {
    Truthy(v) && IsObjectType(v)
  }

  /** The values an array or a string source writes at indices 0, 1, … */
  function Elements(src: JsValue): (e: seq<JsValue>)
    requires src.Arr? || src.Str?
    ensures src.Arr? ==> e == src.items
    ensures src.Str? ==> |e| == |src.s|
  {
    if src.Arr? then src.items else seq(|src.s|, i requires 0 <= i < |src.s| => Str([src.s[i]]))
  }

  /**
   * The inputs whose outcome the value model can represent: an array dest
   * never receives an object's named properties, and a primitive dest
   * never receives any property (that assignment depends on strict mode).
   */
  predicate Modelled(dest: JsValue, src: JsValue)
    decreases dest
  {
    Nullish(src) ||
    match dest
    case Undefined => true
    case Null => true
    case Obj(m) =>
      forall k :: k in OwnProps(src) && k in m && Nested(m[k]) ==> Modelled(m[k], OwnProps(src)[k])
    case Arr(d) =>
      !src.Obj? &&
      ((src.Arr? || src.Str?) ==>
        forall i :: 0 <= i < |d| && i < |Elements(src)| && Nested(d[i]) ==> Modelled(d[i], Elements(src)[i]))
    case _ => OwnProps(src) == map[]
  }

  /** The value of `merge(dest, src)`, or None when it throws. */
  function Merged(dest: JsValue, src: JsValue): Option<JsValue>
    requires Modelled(dest, src)
    decreases dest, 3
  {
    if Nullish(src) then None
    else match dest
      case Obj(m) =>
        var sp := OwnProps(src);
        if !NoNestedFailure(m, src) then None
        else Some(Obj(MergedProps(m, src)))
      case Arr(d) =>
        if src.Arr? || src.Str? then
          var e := Elements(src);
          if exists i :: 0 <= i < |e| && i < |d| && Nested(d[i]) && Merged(d[i], e[i]).None? then None
          else Some(Arr(seq(|e|, i requires 0 <= i < |e| =>
            if i < |d| && Nested(d[i]) then Merged(d[i], e[i]).value else e[i])))
        else Some(dest)
      case _ => if OwnProps(src) == map[] then Some(dest) else None
  }

  /** No nested merge below an object dest throws. */
  predicate NoNestedFailure(m: map<string, JsValue>, src: JsValue)
    requires !Nullish(src) && Modelled(Obj(m), src)
    decreases Obj(m), 0
  {
    forall k :: k in OwnProps(src) && k in m && Nested(m[k]) ==> Merged(m[k], OwnProps(src)[k]).Some?
  }

  /** The value a merge leaves at key `k` of an object dest. */
  function Slot(m: map<string, JsValue>, src: JsValue, k: string): JsValue
    requires !Nullish(src) && Modelled(Obj(m), src) && NoNestedFailure(m, src)
    requires k in m || k in OwnProps(src)
    decreases Obj(m), 1
  {
    var sp := OwnProps(src);
    if k !in sp then m[k]
    else if k in m && Nested(m[k]) then Merged(m[k], sp[k]).value
    else sp[k]
  }

  /** The properties of an object dest after a merge that does not throw. */
  function MergedProps(m: map<string, JsValue>, src: JsValue): map<string, JsValue>
    requires !Nullish(src) && Modelled(Obj(m), src) && NoNestedFailure(m, src)
    decreases Obj(m), 2
  {
    map k | k in m.Keys + OwnProps(src).Keys :: Slot(m, src, k)
  }

  /** merge.ts, dispatching on the kind of dest. */
  method Merge(dest: JsValue, source: JsValue) returns (r: Option<JsValue>)
    requires Modelled(dest, source)
    ensures r == Merged(dest, source)
    decreases dest, 1
  {
    if Nullish(source) {
      return None;
    }
    match dest {
      case Obj(m) =>
        r := MergeObject(m, source);
      case Arr(d) =>
        if source.Arr? || source.Str? {
          r := MergeArray(d, source);
        } else {
          r := Some(dest);
        }
      case _ =>
        if OwnProps(source) == map[] {
          return Some(dest);
        }
        return None;
    }
  }

  /** The property loop of merge.ts over an object dest. */
  method MergeObject(m: map<string, JsValue>, source: JsValue) returns (r: Option<JsValue>)
    requires !Nullish(source) && Modelled(Obj(m), source)
    ensures r == Merged(Obj(m), source)
    decreases Obj(m), 0
  {
    var sp := OwnProps(source);
    var names := sp.Keys;
    var cur := m;
    ghost var done: set<string> := {};
    while names != {}
      invariant names <= sp.Keys && done == sp.Keys - names
      invariant cur.Keys == m.Keys + done
      invariant forall k :: k in done && k in m && Nested(m[k]) ==> Merged(m[k], sp[k]).Some?
      invariant forall k :: k in cur && k !in done ==> cur[k] == m[k]
      invariant forall k :: k in done ==> cur[k] == if k in m && Nested(m[k]) then Merged(m[k], sp[k]).value else sp[k]
      decreases names
    {
      var name :| name in names;
      var dv := Field(cur, name);
      if !Nested(dv) {
        cur := cur[name := sp[name]];
      } else {
        assert name in m && dv == m[name];
        var sub := Merge(m[name], sp[name]);
        if sub.None? {
          assert !NoNestedFailure(m, source);
          return None;
        }
        cur := cur[name := sub.value];
      }
      names := names - {name};
      done := done + {name};
    }
    MergedPropsDone(m, source, cur);
    r := Some(Obj(cur));
  }

  /** Once every source property is written, the loop's map is the merged one. */
  lemma MergedPropsDone(m: map<string, JsValue>, source: JsValue, cur: map<string, JsValue>)
    requires !Nullish(source) && Modelled(Obj(m), source)
    requires cur.Keys == m.Keys + OwnProps(source).Keys
    requires forall k :: k in OwnProps(source) && k in m && Nested(m[k]) ==> Merged(m[k], OwnProps(source)[k]).Some?
    requires forall k :: k in cur && k !in OwnProps(source) ==> cur[k] == m[k]
    requires forall k :: k in OwnProps(source) ==>
      cur[k] == if k in m && Nested(m[k]) then Merged(m[k], OwnProps(source)[k]).value else OwnProps(source)[k]
    ensures NoNestedFailure(m, source) && cur == MergedProps(m, source)
  {
    assert NoNestedFailure(m, source);
    forall k | k in cur ensures cur[k] == MergedProps(m, source)[k] {
    }
  }

  /**
   * Over an array dest the source's indices are written in order (growing
   * the array), and the source's `length` written last truncates it.
   */
  method MergeArray(d: seq<JsValue>, source: JsValue) returns (r: Option<JsValue>)
    requires (source.Arr? || source.Str?) && Modelled(Arr(d), source)
    ensures r == Merged(Arr(d), source)
    decreases Arr(d), 0
  {
    var e := Elements(source);
    var cur := d;
    var i := 0;
    while i < |e|
      invariant 0 <= i <= |e|
      invariant |cur| == if i < |d| then |d| else i
      invariant forall j :: i <= j < |d| ==> cur[j] == d[j]
      invariant forall j :: 0 <= j < i && j < |d| && Nested(d[j]) ==> Merged(d[j], e[j]).Some?
      invariant forall j :: 0 <= j < i ==>
        cur[j] == if j < |d| && Nested(d[j]) then Merged(d[j], e[j]).value else e[j]
    {
      var dv := if i < |cur| then cur[i] else Undefined;
      var v := e[i];
      if Nested(dv) {
        assert i < |d| && dv == d[i];
        var sub := Merge(d[i], e[i]);
        if sub.None? {
          assert 0 <= i < |e| && i < |d| && Nested(d[i]) && Merged(d[i], e[i]).None?;
          return None;
        }
        v := sub.value;
      }
      if i < |cur| {
        cur := cur[i := v];
      } else {
        cur := cur + [v];
      }
      i := i + 1;
    }
    cur := cur[..|e|];
    r := Some(Arr(cur));
    assert cur == seq(|e|, j requires 0 <= j < |e| =>
      if j < |d| && Nested(d[j]) then Merged(d[j], e[j]).value else e[j]);
  }

  /**
   * Per property of an object dest: keys absent from the source keep their
   * value, a falsy or non-object dest value is overwritten by the source's,
   * and an object dest value is merged into, never replaced.
   */
  lemma MergeProperty(m: map<string, JsValue>, src: JsValue, k: string)
    requires Modelled(Obj(m), src) && Merged(Obj(m), src).Some?
    ensures !Nullish(src)
    ensures Merged(Obj(m), src).value.Obj?
    ensures Merged(Obj(m), src).value.props.Keys == m.Keys + OwnProps(src).Keys
    ensures k in m && k !in OwnProps(src) ==> Merged(Obj(m), src).value.props[k] == m[k]
    ensures k in OwnProps(src) && !Nested(Field(m, k)) ==>
      Merged(Obj(m), src).value.props[k] == OwnProps(src)[k]
    ensures k in OwnProps(src) && Nested(Field(m, k)) ==>
      Merged(m[k], OwnProps(src)[k]).Some? &&
      Merged(Obj(m), src).value.props[k] == Merged(m[k], OwnProps(src)[k]).value
  {
    var r := Merged(Obj(m), src).value.props;
    assert r == MergedProps(m, src);
    if k in r {
      assert r[k] == Slot(m, src, k);
    }
  }

  /** Merging into an object yields an object that still has all of its keys. */
  lemma {:induction false} MergeExtends(dest: JsValue, src: JsValue)
    requires dest.Obj? && Modelled(dest, src) && Merged(dest, src).Some?
    ensures Merged(dest, src).value.Obj?
    ensures dest.props.Keys <= Merged(dest, src).value.props.Keys
  {
  }

  /**
   * Reference definition: when no dest value is a nested object, merge is
   * the map override `dest + source`.
   */
  lemma MergeFlat(m: map<string, JsValue>, s: map<string, JsValue>)
    requires forall k :: k in m && k in s ==> !Nested(m[k])
    ensures Modelled(Obj(m), Obj(s))
    ensures Merged(Obj(m), Obj(s)) == Some(Obj(m + s))
  {
    assert OwnProps(Obj(s)) == s;
    assert NoNestedFailure(m, Obj(s));
    var r := MergedProps(m, Obj(s));
    forall k | k in r ensures r[k] == (m + s)[k] {
      assert r[k] == Slot(m, Obj(s), k);
    }
    assert r.Keys == (m + s).Keys;
    assert r == m + s;
  }

  /** An empty source leaves an object or array dest as it is. */
  lemma MergeEmpty(dest: JsValue)
    requires dest.Obj?
    ensures Modelled(dest, Obj(map[]))
    ensures Merged(dest, Obj(map[])) == Some(dest)
  {
    assert OwnProps(Obj(map[])) == map[];
    assert NoNestedFailure(dest.props, Obj(map[]));
    var r := MergedProps(dest.props, Obj(map[]));
    forall k | k in r ensures r[k] == dest.props[k] {
      assert r[k] == Slot(dest.props, Obj(map[]), k);
    }
    assert r == dest.props;
  }

  /** A null or undefined source throws before anything is written. */
  lemma MergeNullishSource(dest: JsValue, src: JsValue)
    requires Nullish(src)
    ensures Modelled(dest, src) && Merged(dest, src).None?
  {
  }

  /** Merging an array into an array gives exactly the source's length. */
  lemma MergeArrays(d: seq<JsValue>, e: seq<JsValue>)
    requires Modelled(Arr(d), Arr(e)) && Merged(Arr(d), Arr(e)).Some?
    ensures Merged(Arr(d), Arr(e)).value.Arr?
    ensures |Merged(Arr(d), Arr(e)).value.items| == |e|
    ensures forall i :: 0 <= i < |e| && !(i < |d| && Nested(d[i])) ==> Merged(Arr(d), Arr(e)).value.items[i] == e[i]
  {
  }
}
