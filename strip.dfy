/**
 * `strip` (src/util/strip.ts, and the identical copy in src/util/index.ts):
 * copy into a fresh object every own property whose value is truthy,
 * `false` or `0`, dropping null, undefined, "" and NaN.
 */
module Strip {
  import opened Js

  /** The values `strip` keeps. */
  predicate Kept(v: JsValue) {
    Truthy(v) || v == Bool(false) || v == Int(0)
  }

  /** The own properties of `data` that survive. */
  function KeptProps(data: JsValue): map<string, JsValue> {
    KeptMap(OwnProps(data))
  }

  /** The entries of `m` whose values survive. */
  function KeptMap(m: map<string, JsValue>): map<string, JsValue> {
    map k | k in m && Kept(m[k]) :: m[k]
  }

  /** What `strip(data)` returns. */
  function Stripped(data: JsValue): JsValue {
    if !Truthy(data) then data else Obj(KeptProps(data))
  }

  /** An entry survives exactly when its value is kept, and keeps its value. */
  lemma KeptMapFacts(m: map<string, JsValue>)
    ensures forall k :: k in KeptMap(m) <==> k in m && Kept(m[k])
    ensures forall k :: k in KeptMap(m) ==> KeptMap(m)[k] == m[k]
  {
  }

  /** A map whose values are all kept is its own `KeptMap`. */
  lemma KeptMapNoop(m: map<string, JsValue>)
    requires forall k :: k in m ==> Kept(m[k])
    ensures KeptMap(m) == m
  {
  }

  /** One entry of `KeptMap`. */
  lemma KeptMapAt(m: map<string, JsValue>, k: string)
    ensures k in KeptMap(m) <==> k in m && Kept(m[k])
    ensures k in KeptMap(m) ==> KeptMap(m)[k] == m[k]
  {
  }

  /** The loop of strip.ts: fill a fresh object property by property. */
  method Strip(data: JsValue) returns (r: JsValue)
    ensures r == Stripped(data)
    ensures !Truthy(data) ==> r == data
    ensures Truthy(data) ==> r.Obj?
    ensures r.Obj? && Truthy(data) ==> forall k :: k in r.props <==> k in OwnProps(data) && Kept(OwnProps(data)[k])
    ensures r.Obj? && Truthy(data) ==> forall k :: k in r.props ==> r.props[k] == OwnProps(data)[k]
  {
    if !Truthy(data) {
      return data;
    }
    var m := OwnProps(data);
    var names := m.Keys;
    var res: map<string, JsValue> := map[];
    while names != {}
      invariant names <= m.Keys
      invariant forall k :: k in res <==> k in m && k !in names && Kept(m[k])
      invariant forall k :: k in res ==> res[k] == m[k]
      decreases names
    {
      var name :| name in names;
      if Kept(m[name]) {
        res := res[name := m[name]];
      }
      names := names - {name};
    }
    assert res == KeptProps(data);
    r := Obj(res);
  }

  /** The kept properties: keys are a subset, and values are identical. */
  lemma StripKeeps(data: JsValue, k: string)
    requires Truthy(data)
    ensures Stripped(data).Obj?
    ensures k in Stripped(data).props <==> k in OwnProps(data) && Kept(OwnProps(data)[k])
    ensures k in Stripped(data).props ==> Stripped(data).props[k] == OwnProps(data)[k]
    ensures k in Stripped(data).props <==>
      k in OwnProps(data) && !(OwnProps(data)[k] in {Undefined, Null, NaN, Str("")})
  {
  }

  /** A stripped object holds only kept values. */
  lemma StrippedValuesKept(data: JsValue)
    requires Truthy(data)
    ensures forall k :: k in OwnProps(Stripped(data)) ==> Kept(OwnProps(Stripped(data))[k])
    ensures OwnProps(Stripped(data)).Keys <= OwnProps(data).Keys
  {
  }

  /** `strip(strip(x)) == strip(x)`. */
  lemma StripIdempotent(data: JsValue)
    ensures Stripped(Stripped(data)) == Stripped(data)
  {
    if Truthy(data) {
      var m := KeptProps(data);
      assert OwnProps(Obj(m)) == m;
      assert KeptProps(Obj(m)) == m;
    }
  }

  /** On an object whose own values are all kept, strip is a copy. */
  lemma StripNoop(m: map<string, JsValue>)
    requires forall k :: k in m ==> Kept(m[k])
    ensures Stripped(Obj(m)) == Obj(m)
  {
    assert KeptProps(Obj(m)) == m;
  }
}
