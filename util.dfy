/**
 * The helpers of src/util/index.ts that are not shared with the standalone
 * files: `toBolean` and the shallow `merge`.  Its `strip` is Strip.Strip and
 * its `clone` is Clone.CloneSelective (the code is the same).
 */
module Util {
  import opened Js
  import opened Errors
  import Merge

  /**
   * `toBolean`: booleans pass through, other falsy values give null, and
   * anything else is true exactly when its string form, trimmed and
   * lower-cased, is "true".
   */
  function ToBolean(data: JsValue): (r: JsValue)
    ensures data.Bool? ==> r == data
    ensures !data.Bool? && !Truthy(data) ==> r == Null
    ensures !data.Bool? && Truthy(data) ==> r == Bool(Lower(Trim(ToStr(data))) == "true")
  {
    if data.Bool? then data
    else if !Truthy(data) then Null
    else Bool(Lower(Trim(ToStr(data))) == "true")
  }

  /** The result is always a boolean or null, and converting it again changes nothing. */
  lemma ToBoleanIdempotent(data: JsValue)
    ensures ToBolean(data).Bool? || ToBolean(data) == Null
    ensures ToBolean(ToBolean(data)) == ToBolean(data)
    ensures ToBolean(data) == Null <==> !data.Bool? && !Truthy(data)
  {
  }

  /** "TRUE" converts to true. */
  lemma ToBoleanUpperCase()
    ensures ToBolean(Str("TRUE")) == Bool(true)
  {
    assert !IsJsSpace('T') && !IsJsSpace('E');
    assert TrimStart("TRUE") == "TRUE";
    assert TrimEnd("TRUE") == "TRUE";
    assert Lower("TRUE") == "true";
  }

  /** " true" converts to true: leading white space is ignored. */
  lemma ToBoleanLeadingSpace()
    ensures ToBolean(Str(" true")) == Bool(true)
  {
    TrimLeadingSpace();
    LowerTrue();
  }

  lemma TrimLeadingSpace()
    ensures Trim(" true") == "true"
  {
    assert IsJsSpace(' ') && !IsJsSpace('t') && !IsJsSpace('e');
    assert " true"[1..] == "true";
    assert TrimStart(" true") == "true";
    assert TrimEnd("true") == "true";
  }

  lemma LowerTrue()
    ensures Lower("true") == "true"
  {
  }

  const ReferenceError: Exception := Native("ReferenceError", "merge is not defined")

  /**
   * The inputs the value model represents (as for Merge.Modelled): no named
   * property onto an array, no property onto a primitive.
   */
  predicate ShallowModelled(dest: JsValue, src: JsValue) {
    Nullish(src) ||
    ((dest.Arr? ==> !src.Obj?) &&
     (!dest.Arr? && !dest.Obj? && !Nullish(dest) ==> OwnProps(src) == map[]))
  }

  /**
   * What `merge` of src/util/index.ts does.  Where dest holds a nested
   * object it calls a `merge` that the file never declares, which raises a
   * ReferenceError; everywhere else it overwrites.
   */
  function ShallowMerged(dest: JsValue, src: JsValue): Result<JsValue>
    requires ShallowModelled(dest, src)
  {
    if Nullish(src) then Err(TypeError)
    else match dest
      case Obj(m) =>
        var sp := OwnProps(src);
        if NestedClash(m, sp) then Err(ReferenceError)
        else Ok(Obj(m + sp))
      case Arr(d) =>
        if src.Arr? || src.Str? then
          var e := Merge.Elements(src);
          if exists i :: 0 <= i < |e| && i < |d| && Merge.Nested(d[i]) then Err(ReferenceError)
          else Ok(Arr(e))
        else Ok(dest)
      case _ => if OwnProps(src) == map[] then Ok(dest) else Err(TypeError)
  }

  /** A property of the source lands on a nested object of dest. */
  predicate NestedClash(m: map<string, JsValue>, sp: map<string, JsValue>) {
    exists k :: k in sp && k in m && Merge.Nested(m[k])
  }

  /** The property loop of `merge` over an object dest. */
  method ShallowMerge(m: map<string, JsValue>, source: JsValue) returns (r: Result<JsValue>)
    requires ShallowModelled(Obj(m), source)
    ensures r == ShallowMerged(Obj(m), source)
  {
    if Nullish(source) {
      return Err(TypeError);
    }
    var dest := MergeProps(m, OwnProps(source));
    r := if dest.Err? then Err(dest.ex) else Ok(Obj(dest.value));
  }

  /** `for (const name of Object.getOwnPropertyNames(source))`: overwrite, or fail on a nested object. */
  method MergeProps(m: map<string, JsValue>, sp: map<string, JsValue>) returns (r: Result<map<string, JsValue>>)
    ensures r == if NestedClash(m, sp) then Err(ReferenceError) else Ok(m + sp)
  {
    var names := sp.Keys;
    var dest := m;
    while names != {}
      invariant names <= sp.Keys
      invariant forall k :: k in sp && k !in names && k in m ==> !Merge.Nested(m[k])
      invariant dest == m + Written(sp, names)
      decreases names
    {
      var name :| name in names;
      if Merge.Nested(Field(dest, name)) {
        assert name in m && Merge.Nested(m[name]);
        return Err(ReferenceError);
      }
      WrittenStep(m, sp, names, name);
      dest := dest[name := sp[name]];
      names := names - {name};
    }
    assert Written(sp, names) == sp;
    r := Ok(dest);
  }

  /** The source properties the loop has written so far. */
  function Written(sp: map<string, JsValue>, names: set<string>): map<string, JsValue> {
    map k | k in sp && k !in names :: sp[k]
  }

  lemma WrittenStep(m: map<string, JsValue>, sp: map<string, JsValue>, names: set<string>, name: string)
    requires name in names && names <= sp.Keys
    ensures (m + Written(sp, names))[name := sp[name]] == m + Written(sp, names - {name})
  {
  }

  /** Without nested objects in dest the two merges of the code base agree. */
  lemma ShallowAgreesWithDeep(m: map<string, JsValue>, s: map<string, JsValue>)
    requires forall k :: k in m && k in s ==> !Merge.Nested(m[k])
    ensures ShallowMerged(Obj(m), Obj(s)) == Ok(Obj(m + s))
    ensures Merge.Modelled(Obj(m), Obj(s)) && Merge.Merged(Obj(m), Obj(s)) == Some(Obj(m + s))
  {
    assert OwnProps(Obj(s)) == s;
    Merge.MergeFlat(m, s);
  }

  /** A nested merge, which merge.ts performs, raises a ReferenceError here. */
  lemma ShallowNestedThrows(m: map<string, JsValue>, s: map<string, JsValue>, k: string)
    requires k in m && k in s && Merge.Nested(m[k])
    ensures ShallowMerged(Obj(m), Obj(s)) == Err(ReferenceError)
  {
    assert OwnProps(Obj(s)) == s;
    assert k in OwnProps(Obj(s)) && k in m && Merge.Nested(m[k]);
  }
}
