/**
 * JavaScript values as the engine's TypeScript code sees them at run time,
 * with the few language operations the modelled code relies on: truthiness,
 * own-property enumeration, property reads, string and number conversion,
 * the `<` and `+` operators, `parseInt`, `trim`, `toLowerCase`, `split` and
 * `indexOf`.  Numbers are integers: NaN is the one non-integral number.
 *
 * Objects are finite maps from property names to values, so property
 * enumeration order is not represented.  Strict equality on objects and
 * arrays is modelled structurally (JavaScript compares references).
 */
module Js {

  datatype Option<T> = None | Some(value: T)

  datatype JsValue =
    | Undefined
    | Null
    | NaN
    | Bool(b: bool)
    | Int(i: int)
    | Str(s: string)
    | Arr(items: seq<JsValue>)
    | Obj(props: map<string, JsValue>)

  /** JavaScript truthiness: undefined, null, NaN, false, 0 and "" are falsy. */
  predicate Truthy(v: JsValue) {
    match v
    case Undefined => false
    case Null => false
    case NaN => false
    case Bool(b) => b
    case Int(i) => i != 0
    case Str(s) => s != ""
    case Arr(_) => true
    case Obj(_) => true
  }

  /** Reading a property of these throws a TypeError. */
  predicate Nullish(v: JsValue) {
    v == Undefined || v == Null
  }

  /** `typeof v === 'object'` (null included, as in JavaScript). */
  predicate IsObjectType(v: JsValue) {
    v.Null? || v.Arr? || v.Obj?
  }

  /** `a === b`; NaN is unequal to itself. */
  predicate StrictEquals(a: JsValue, b: JsValue) {
    !a.NaN? && a == b
  }

  /** `Array.prototype.indexOf(x) !== -1` on a list. */
  predicate Contains(items: seq<JsValue>, x: JsValue) {
    exists i :: 0 <= i < |items| && StrictEquals(items[i], x)
  }

  /** Index of the first strictly-equal element, -1 when there is none. */
  function IndexOf(items: seq<JsValue>, x: JsValue): (r: int)
    ensures -1 <= r < |items|
    ensures r == -1 <==> !Contains(items, x)
    ensures r >= 0 ==> StrictEquals(items[r], x) && forall j :: 0 <= j < r ==> !StrictEquals(items[j], x)
  {
    if |items| == 0 then -1
    else if StrictEquals(items[0], x) then 0
    else
      var k := IndexOf(items[1..], x);
      assert forall j :: 0 < j < |items| ==> items[j] == items[1..][j - 1];
      if k == -1 then -1 else k + 1
  }

  /** An element of a concatenation is an element of one of the parts. */
  lemma ContainsConcat(a: seq<JsValue>, b: seq<JsValue>, x: JsValue)
    ensures Contains(a + b, x) <==> Contains(a, x) || Contains(b, x)
  {
    if Contains(a, x) {
      var i :| 0 <= i < |a| && StrictEquals(a[i], x);
      assert (a + b)[i] == a[i];
    }
    if Contains(b, x) {
      var i :| 0 <= i < |b| && StrictEquals(b[i], x);
      assert (a + b)[|a| + i] == b[i];
    }
    if Contains(a + b, x) {
      var i :| 0 <= i < |a + b| && StrictEquals((a + b)[i], x);
      if i < |a| {
        assert (a + b)[i] == a[i];
      } else {
        assert (a + b)[i] == b[i - |a|];
      }
    }
  }

  // ---------------------------------------------------------------------
  // Decimal rendering of integers

  function DigitChar(d: nat): char
    requires d < 10
  {
    "0123456789"[d]
  }

  function NatStr(n: nat): (r: string)
    ensures |r| >= 1
    ensures forall k :: 0 <= k < |r| ==> '0' <= r[k] <= '9'
    ensures r[0] == '0' ==> n == 0
  {
    if n < 10 then [DigitChar(n)] else NatStr(n / 10) + [DigitChar(n % 10)]
  }

  /** `String(i)` for an integer. */
  function IntStr(i: int): string {
    if i < 0 then "-" + NatStr(-i) else NatStr(i)
  }

  // ---------------------------------------------------------------------
  // Own properties

  function IndexProps(items: seq<JsValue>): map<string, JsValue> {
    if |items| == 0 then map[]
    else IndexProps(items[..|items| - 1])[NatStr(|items| - 1) := items[|items| - 1]]
  }

  function CharProps(s: string): map<string, JsValue> {
    if |s| == 0 then map[]
    else CharProps(s[..|s| - 1])[NatStr(|s| - 1) := Str([s[|s| - 1]])]
  }

  /**
   * `Object.getOwnPropertyNames(v)` paired with the values: an object's own
   * properties; an array's or a string's indices and `length`; nothing for
   * the other primitives (for null and undefined the call throws, which
   * callers check with Nullish first).
   */
  function OwnProps(v: JsValue): map<string, JsValue> {
    match v
    case Obj(m) => m
    case Arr(items) => IndexProps(items)["length" := Int(|items|)]
    case Str(s) => CharProps(s)["length" := Int(|s|)]
    case _ => map[]
  }

  /** `v[k]` for an own property; absent properties read as undefined. */
  function Get(v: JsValue, k: string): JsValue {
    var m := OwnProps(v);
    if k in m then m[k] else Undefined
  }

  /** Object literal field read. */
  function Field(m: map<string, JsValue>, k: string): JsValue {
    if k in m then m[k] else Undefined
  }

  // ---------------------------------------------------------------------
  // String conversion

  /** `'' + v` (and `String(v)`, template interpolation). */
  function ToStr(v: JsValue): string {
    match v
    case Undefined => "undefined"
    case Null => "null"
    case NaN => "NaN"
    case Bool(b) => if b then "true" else "false"
    case Int(i) => IntStr(i)
    case Str(s) => s
    case Arr(items) => Join(ElementStrs(items), ',')
    case Obj(_) => "[object Object]"
  }

  /** `Array.prototype.join` renders null and undefined elements as "". */
  function ElementStrs(items: seq<JsValue>): (r: seq<string>)
    ensures |r| == |items|
  {
    if |items| == 0 then []
    else [if Nullish(items[0]) then "" else ToStr(items[0])] + ElementStrs(items[1..])
  }

  // ---------------------------------------------------------------------
  // Whitespace, case and splitting

  /** WhiteSpace and LineTerminator code points, as `trim` and `parseInt` skip them. */
  predicate IsJsSpace(c: char) {
    c == '\t' || c == '\U{000B}' || c == '\U{000C}' || c == ' ' || c == '\U{00A0}' || c == '\U{FEFF}'
    || c == '\n' || c == '\r' || c == '\U{2028}' || c == '\U{2029}'
    || c == '\U{1680}' || ('\U{2000}' <= c <= '\U{200A}') || c == '\U{202F}' || c == '\U{205F}'
    || c == '\U{3000}'
  }

  function TrimStart(s: string): (r: string)
    ensures |r| <= |s| && r == s[|s| - |r|..]
    ensures |r| > 0 ==> !IsJsSpace(r[0])
    ensures forall k :: 0 <= k < |s| - |r| ==> IsJsSpace(s[k])
  {
    if |s| > 0 && IsJsSpace(s[0]) then TrimStart(s[1..]) else s
  }

  function TrimEnd(s: string): (r: string)
    ensures |r| <= |s| && r == s[..|r|]
    ensures |r| > 0 ==> !IsJsSpace(r[|r| - 1])
    ensures forall k :: |r| <= k < |s| ==> IsJsSpace(s[k])
  {
    if |s| > 0 && IsJsSpace(s[|s| - 1]) then TrimEnd(s[..|s| - 1]) else s
  }

  /** `String.prototype.trim`. */
  function Trim(s: string): string {
    TrimEnd(TrimStart(s))
  }

  function LowerChar(c: char): char {
    if 'A' <= c <= 'Z' then (c as int + 32) as char else c
  }

  /** `String.prototype.toLowerCase`, for the ASCII letters. */
  function Lower(s: string): (r: string)
    ensures |r| == |s|
    ensures forall k :: 0 <= k < |s| ==> r[k] == LowerChar(s[k])
  {
    if |s| == 0 then [] else [LowerChar(s[0])] + Lower(s[1..])
  }

  /** `s.split(c)` for a one-character separator. */
  function Split(s: string, c: char): (r: seq<string>)
    ensures |r| >= 1
    ensures forall k :: 0 <= k < |r| ==> c !in r[k]
    decreases |s|
  {
    if c !in s then [s]
    else
      var i := FirstIndex(s, c);
      [s[..i]] + Split(s[i + 1..], c)
  }

  /** Splitting at the first separator. */
  lemma SplitAt(h: string, c: char, rest: string)
    requires c !in h
    ensures Split(h + [c] + rest, c) == [h] + Split(rest, c)
  {
    var s := h + [c] + rest;
    assert s[|h|] == c;
    var i := FirstIndex(s, c);
    assert forall j :: 0 <= j < |h| ==> s[j] == h[j];
    assert i == |h|;
    assert s[..i] == h;
    assert s[i + 1..] == rest;
  }

  function FirstIndex(s: string, c: char): (i: nat)
    requires c in s
    ensures i < |s| && s[i] == c && c !in s[..i]
  {
    if s[0] == c then 0 else 1 + FirstIndex(s[1..], c)
  }

  function Join(parts: seq<string>, c: char): string {
    if |parts| == 0 then ""
    else if |parts| == 1 then parts[0]
    else parts[0] + [c] + Join(parts[1..], c)
  }

  /** Splitting undoes joining: `s.split(c).join(c) == s`. */
  lemma {:induction false} JoinSplit(s: string, c: char)
    ensures Join(Split(s, c), c) == s
    decreases |s|
  {
    if c in s {
      var i := FirstIndex(s, c);
      var rest := Split(s[i + 1..], c);
      JoinSplit(s[i + 1..], c);
      var parts := [s[..i]] + rest;
      assert Split(s, c) == parts;
      assert parts[0] == s[..i] && parts[1..] == rest;
      assert Join(parts, c) == s[..i] + [c] + Join(rest, c);
      assert s == s[..i] + [c] + s[i + 1..];
    }
  }

  /** Joining pieces free of the separator and splitting again gives the pieces back. */
  lemma {:induction false} SplitJoin(parts: seq<string>, c: char)
    requires |parts| >= 1
    requires forall k :: 0 <= k < |parts| ==> c !in parts[k]
    ensures Split(Join(parts, c), c) == parts
    decreases |parts|
  {
    if |parts| > 1 {
      var s := Join(parts, c);
      var p0 := parts[0];
      var rest := Join(parts[1..], c);
      assert s == p0 + [c] + rest;
      assert s[|p0|] == c;
      var i := FirstIndex(s, c);
      assert forall j :: 0 <= j < |p0| ==> s[j] == p0[j];
      assert i >= |p0|;
      assert i == |p0|;
      assert s[..i] == p0;
      assert s[i + 1..] == rest;
      SplitJoin(parts[1..], c);
    }
  }

  /** `String.prototype.indexOf(p) !== -1`. */
  predicate HasSubstring(s: string, p: string) {
    p <= s || (|s| > 0 && HasSubstring(s[1..], p))
  }

  // ---------------------------------------------------------------------
  // parseInt with no radix argument

  function DigitValue(c: char): nat {
    if '0' <= c <= '9' then c as int - '0' as int
    else if 'a' <= c <= 'z' then c as int - 'a' as int + 10
    else if 'A' <= c <= 'Z' then c as int - 'A' as int + 10
    else 36
  }

  /** Length of the longest prefix of `s` made of digits in `radix`. */
  function DigitRun(s: string, radix: nat): (n: nat)
    ensures n <= |s|
    ensures forall k :: 0 <= k < n ==> DigitValue(s[k]) < radix
    ensures n < |s| ==> DigitValue(s[n]) >= radix
  {
    if |s| > 0 && DigitValue(s[0]) < radix then 1 + DigitRun(s[1..], radix) else 0
  }

  function DigitsValue(ds: string, radix: nat): nat {
    if |ds| == 0 then 0
    else DigitsValue(ds[..|ds| - 1], radix) * radix + (if DigitValue(ds[|ds| - 1]) < radix then DigitValue(ds[|ds| - 1]) else 0)
  }

  /**
   * `parseInt(s)` (None stands for NaN): leading white space is skipped, one
   * sign is allowed, a `0x`/`0X` prefix switches to hexadecimal, and the
   * longest run of digits is read; no digit at all gives NaN.
   */
  function ParseInt(s: string): Option<int> {
    ParseSigned(TrimStart(s))
  }

  function ParseSigned(t: string): Option<int> {
    if |t| > 0 && t[0] == '-' then
      var m := ParseUnsigned(t[1..]);
      if m.Some? then Some(-(m.value as int)) else None
    else if |t| > 0 && t[0] == '+' then
      var m := ParseUnsigned(t[1..]);
      if m.Some? then Some(m.value as int) else None
    else
      var m := ParseUnsigned(t);
      if m.Some? then Some(m.value as int) else None
  }

  function ParseUnsigned(u: string): Option<nat> {
    if |u| >= 2 && u[0] == '0' && (u[1] == 'x' || u[1] == 'X') then ParseDigits(u[2..], 16)
    else ParseDigits(u, 10)
  }

  function ParseDigits(body: string, radix: nat): Option<nat> {
    var n := DigitRun(body, radix);
    if n == 0 then None else Some(DigitsValue(body[..n], radix))
  }

  /** `parseInt` applied to a value, which JavaScript first turns into a string. */
  function ParseIntValue(v: JsValue): Option<int> {
    ParseInt(ToStr(v))
  }

  /** A parsed number as a JavaScript value (NaN when parsing failed). */
  function NumberValue(n: Option<int>): JsValue {
    if n.Some? then Int(n.value) else NaN
  }

  lemma {:induction false} DigitsValueNatStr(n: nat)
    ensures DigitsValue(NatStr(n), 10) == n
    decreases n
  {
    var r := NatStr(n);
    var q, d := n / 10, n % 10;
    DigitCharValue(d);
    if n >= 10 {
      DigitsValueNatStr(q);
      assert r[..|r| - 1] == NatStr(q);
      assert r[|r| - 1] == DigitChar(d);
      assert DigitsValue(r, 10) == q * 10 + d;
    } else {
      assert r == [DigitChar(d)];
      assert r[..0] == [];
    }
  }

  lemma DigitCharValue(d: nat)
    requires d < 10
    ensures DigitValue(DigitChar(d)) == d
  {
  }

  lemma {:induction false} DigitRunDecimal(d: string)
    requires forall k :: 0 <= k < |d| ==> '0' <= d[k] <= '9'
    ensures DigitRun(d, 10) == |d|
    decreases |d|
  {
    if |d| > 0 {
      DigitRunDecimal(d[1..]);
    }
  }

  lemma ParseDecimal(d: string)
    requires |d| >= 1
    requires forall k :: 0 <= k < |d| ==> '0' <= d[k] <= '9'
    ensures ParseUnsigned(d) == Some(DigitsValue(d, 10))
  {
    DigitRunDecimal(d);
    assert d[..|d|] == d;
  }

  /** Printing an integer and parsing it back gives the same integer. */
  lemma ParseIntStr(i: int)
    ensures ParseInt(IntStr(i)) == Some(i)
  {
    if i < 0 {
      ParseIntOfNegStr(IntStr(i), -i);
    } else {
      ParseIntOfNatStr(IntStr(i), i);
    }
  }

  lemma ParseIntOfNegStr(s: string, m: nat)
    requires s == "-" + NatStr(m)
    ensures ParseInt(s) == Some(-(m as int))
  {
    NoSpaceFirst(s);
    ParseNegative(m);
  }

  lemma ParseIntOfNatStr(s: string, m: nat)
    requires s == NatStr(m)
    ensures ParseInt(s) == Some(m)
  {
    NoSpaceFirst(s);
    ParseNonNegative(m);
  }

  /** A string starting with a digit or a minus sign has no leading white space. */
  lemma NoSpaceFirst(s: string)
    requires |s| > 0 && (s[0] == '-' || '0' <= s[0] <= '9')
    ensures TrimStart(s) == s
  {
  }

  lemma ParseNonNegative(m: nat)
    ensures ParseSigned(NatStr(m)) == Some(m)
  {
    var d := NatStr(m);
    ParseDecimal(d);
    DigitsValueNatStr(m);
  }

  lemma ParseNegative(m: nat)
    ensures ParseSigned("-" + NatStr(m)) == Some(-(m as int))
  {
    var d := NatStr(m);
    assert ("-" + d)[1..] == d;
    ParseDecimal(d);
    DigitsValueNatStr(m);
  }

  // ---------------------------------------------------------------------
  // Number conversion, `<` and `+`

  /** ToPrimitive: an array's or object's `valueOf` is itself, so its string form decides. */
  function ToPrimitive(v: JsValue): (r: JsValue)
    ensures !r.Arr? && !r.Obj?
    ensures ToStr(r) == ToStr(v)
  {
    if v.Arr? || v.Obj? then Str(ToStr(v)) else v
  }

  /** The whole number that all of `body` spells in `radix`; None when `body` is empty or has another character. */
  function WholeDigits(body: string, radix: nat): Option<int> {
    if |body| > 0 && DigitRun(body, radix) == |body| then Some(DigitsValue(body, radix)) else None
  }

  /**
   * `Number(s)` for a string (None stands for NaN): surrounding white space
   * is ignored, the empty string is 0, the prefixes `0x`, `0o` and `0b` read
   * hexadecimal, octal and binary digits, and anything else must be a
   * decimal integer with at most one sign.  Spellings of fractions,
   * exponents and Infinity give None as well.
   */
  function StrToNumber(s: string): Option<int> {
    var t := Trim(s);
    if t == "" then Some(0)
    else if |t| >= 2 && t[0] == '0' && (t[1] == 'x' || t[1] == 'X') then WholeDigits(t[2..], 16)
    else if |t| >= 2 && t[0] == '0' && (t[1] == 'o' || t[1] == 'O') then WholeDigits(t[2..], 8)
    else if |t| >= 2 && t[0] == '0' && (t[1] == 'b' || t[1] == 'B') then WholeDigits(t[2..], 2)
    else if t[0] == '-' then
      var m := WholeDigits(t[1..], 10);
      if m.Some? then Some(-m.value) else None
    else if t[0] == '+' then WholeDigits(t[1..], 10)
    else WholeDigits(t, 10)
  }

  /** `Number(v)`: undefined is NaN, null 0, a boolean 0 or 1, an array or object its string form read as a number. */
  function ToNumber(v: JsValue): Option<int> {
    match v
    case Undefined => None
    case Null => Some(0)
    case NaN => None
    case Bool(b) => Some(if b then 1 else 0)
    case Int(i) => Some(i)
    case Str(s) => StrToNumber(s)
    case Arr(_) => StrToNumber(ToStr(v))
    case Obj(_) => StrToNumber(ToStr(v))
  }

  /**
   * `<` on two strings, character by character.  A Dafny `char` is a code
   * point while JavaScript compares UTF-16 code units, so the two orders
   * agree on strings without characters above U+FFFF.
   */
  predicate StrLess(a: string, b: string) {
    if |a| == 0 then |b| > 0
    else if |b| == 0 then false
    else if a[0] != b[0] then a[0] < b[0]
    else StrLess(a[1..], b[1..])
  }

  /** `a < b`: two primitives that are strings compare as strings, anything else as numbers, and NaN compares false. */
  predicate LessThan(a: JsValue, b: JsValue) {
    var pa := ToPrimitive(a);
    var pb := ToPrimitive(b);
    if pa.Str? && pb.Str? then StrLess(pa.s, pb.s)
    else ToNumber(pa).Some? && ToNumber(pb).Some? && ToNumber(pa).value < ToNumber(pb).value
  }

  /** `a + b`: concatenation when either primitive is a string, otherwise numeric addition. */
  function Plus(a: JsValue, b: JsValue): JsValue {
    var pa := ToPrimitive(a);
    var pb := ToPrimitive(b);
    if pa.Str? || pb.Str? then Str(ToStr(pa) + ToStr(pb))
    else if ToNumber(pa).Some? && ToNumber(pb).Some? then Int(ToNumber(pa).value + ToNumber(pb).value)
    else NaN
  }

  /** A string that neither starts nor ends with white space is its own trim. */
  lemma TrimKeeps(s: string)
    requires |s| > 0 && !IsJsSpace(s[0]) && !IsJsSpace(s[|s| - 1])
    ensures Trim(s) == s
  {
    assert TrimStart(s) == s;
  }

  /** A string that starts with none of white space, a digit or a sign spells no number. */
  lemma NoNumberLead(s: string)
    requires |s| > 0 && !IsJsSpace(s[0]) && DigitValue(s[0]) >= 10 && s[0] != '-' && s[0] != '+'
    ensures StrToNumber(s) == None
  {
    assert TrimStart(s) == s;
    var t := TrimEnd(s);
    assert |t| > 0 && t[0] == s[0];
    assert DigitRun(t, 10) == 0;
  }

  lemma WholeDecimal(m: nat)
    ensures WholeDigits(NatStr(m), 10) == Some(m)
  {
    DigitRunDecimal(NatStr(m));
    DigitsValueNatStr(m);
  }

  lemma NumberOfNatStr(t: string, m: nat)
    requires t == NatStr(m)
    ensures StrToNumber(t) == Some(m)
  {
    TrimKeeps(t);
    assert |t| >= 2 ==> '0' <= t[1] <= '9';
    assert t[0] != '-' && t[0] != '+';
    WholeDecimal(m);
  }

  lemma TrimNegStr(m: nat)
    ensures Trim("-" + NatStr(m)) == "-" + NatStr(m)
  {
    var d := NatStr(m);
    var t := "-" + d;
    assert t[|t| - 1] == d[|d| - 1];
    TrimKeeps(t);
  }

  lemma NumberOfNegStr(t: string, m: nat)
    requires t == "-" + NatStr(m)
    ensures StrToNumber(t) == Some(-(m as int))
  {
    TrimNegStr(m);
    assert t[1..] == NatStr(m);
    WholeDecimal(m);
  }

  /** Printing an integer and converting the string back with `Number` gives the same integer. */
  lemma NumberOfIntStr(i: int)
    ensures ToNumber(Str(IntStr(i))) == Some(i)
  {
    StrToNumberIntStr(IntStr(i), i);
  }

  lemma StrToNumberIntStr(s: string, i: int)
    requires s == IntStr(i)
    ensures StrToNumber(s) == Some(i)
  {
    if i < 0 {
      NumberOfNegStr(s, -i);
    } else {
      NumberOfNatStr(s, i);
    }
  }

  /** Converting to a primitive first does not change the number a value stands for. */
  lemma PrimitiveNumber(v: JsValue)
    ensures ToNumber(ToPrimitive(v)) == ToNumber(v)
  {
  }

  /** Unless both sides are strings, `<` compares the numbers the values stand for, and NaN compares false. */
  lemma LessThanNumbers(x: JsValue, y: JsValue)
    requires !ToPrimitive(x).Str? || !ToPrimitive(y).Str?
    ensures LessThan(x, y) <==> ToNumber(x).Some? && ToNumber(y).Some? && ToNumber(x).value < ToNumber(y).value
  {
    PrimitiveNumber(x);
    PrimitiveNumber(y);
  }

  /** A number compared with the decimal string of another compares as the two integers: `1 < "2"`. */
  lemma LessThanNumericString(a: int, b: int)
    ensures LessThan(Int(a), Str(IntStr(b))) <==> a < b
  {
    NumberOfIntStr(b);
    LessThanNumbers(Int(a), Str(IntStr(b)));
  }

  /** A decimal string compared with a number compares as the two integers: `"1" < 2`. */
  lemma NumericStringLessThan(a: int, b: int)
    ensures LessThan(Str(IntStr(a)), Int(b)) <==> a < b
  {
    NumberOfIntStr(a);
    LessThanNumbers(Str(IntStr(a)), Int(b));
  }

  lemma {:induction false} StrLessIrreflexive(a: string)
    ensures !StrLess(a, a)
    decreases |a|
  {
    if |a| > 0 {
      StrLessIrreflexive(a[1..]);
    }
  }

  /** `<` is irreflexive: no value is below itself. */
  lemma LessThanIrreflexive(v: JsValue)
    ensures !LessThan(v, v)
  {
    if ToPrimitive(v).Str? {
      StrLessIrreflexive(ToPrimitive(v).s);
    }
  }

  /** Nothing is below `undefined`, which converts to NaN. */
  lemma NothingBelowUndefined(v: JsValue)
    ensures !LessThan(v, Undefined)
  {
  }

  /** An object converts to NaN: "[object Object]" spells no number. */
  lemma ObjectIsNaN(m: map<string, JsValue>)
    ensures ToNumber(Obj(m)) == None
  {
    NoNumberLead("[object Object]");
  }

  /** Adding a number to a string appends the number's decimal form. */
  lemma PlusString(s: string, n: int)
    ensures Plus(Str(s), Int(n)) == Str(s + IntStr(n))
  {
  }

  /** Past its indices and `length`, an array has no own property: a name that does not start with a digit reads undefined. */
  lemma {:induction false} ArrayNamedUndefined(items: seq<JsValue>, k: string)
    requires k != "length" && (|k| == 0 || !('0' <= k[0] <= '9'))
    ensures Get(Arr(items), k) == Undefined
  {
    IndexPropsNames(items, k);
  }

  /** `v[0]` is the first element of an array and the first character of a string. */
  lemma FirstProp(v: JsValue)
    requires (v.Arr? && |v.items| > 0) || (v.Str? && |v.s| > 0)
    ensures v.Arr? ==> Get(v, "0") == v.items[0]
    ensures v.Str? ==> Get(v, "0") == Str([v.s[0]])
  {
    if v.Arr? {
      IndexPropsZero(v.items);
    } else {
      CharPropsZero(v.s);
    }
  }

  lemma {:induction false} IndexPropsZero(items: seq<JsValue>)
    requires |items| > 0
    ensures "0" in IndexProps(items) && IndexProps(items)["0"] == items[0]
    decreases |items|
  {
    var n := |items| - 1;
    if n == 0 {
      assert NatStr(0) == "0";
    } else {
      IndexPropsZero(items[..n]);
      NatStrNotZero(n);
    }
  }

  lemma {:induction false} CharPropsZero(s: string)
    requires |s| > 0
    ensures "0" in CharProps(s) && CharProps(s)["0"] == Str([s[0]])
    decreases |s|
  {
    var n := |s| - 1;
    if n == 0 {
      assert NatStr(0) == "0";
    } else {
      CharPropsZero(s[..n]);
      NatStrNotZero(n);
    }
  }

  /** Only 0 is written "0". */
  lemma NatStrNotZero(n: nat)
    requires n > 0
    ensures NatStr(n) != "0"
  {
    DigitsValueNatStr(n);
    assert DigitsValue("0", 10) == 0;
  }

  lemma {:induction false} IndexPropsNames(items: seq<JsValue>, k: string)
    requires |k| == 0 || !('0' <= k[0] <= '9')
    ensures k !in IndexProps(items)
    decreases |items|
  {
    if |items| > 0 {
      IndexPropsNames(items[..|items| - 1], k);
      var n := NatStr(|items| - 1);
      assert '0' <= n[0] <= '9';
    }
  }
}
