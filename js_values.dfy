/**
 * The slice of JavaScript value semantics that the normaliser depends on:
 * truthiness, `||`, property reads, `String(v)`, `Number(v)` and
 * `String.prototype.trim`. Values are those `JSON.parse` can produce.
 * A conversion that throws gives `Err(TypeError)`.
 */
module JsValues {
  import opened Wrappers
  import opened JsNumber

  /** A value decoded from the scheduling provider's JSON body. */
  datatype JSValue =
    | Undefined
    | Null
    | Bool(b: bool)
    | Num(n: Number)
    | Str(s: string)
    | Arr(items: seq<JSValue>)
    | Obj(fields: map<string, JSValue>)

  /**
   * The parts of the JavaScript engine the model leaves abstract:
   * - parseNumber: StringToNumber on a string that is already trimmed and not empty
   *   (the numeric-literal grammar, `Infinity`, hex and the like);
   * - formatNumber: Number::toString for values that are not integers below 10^21;
   * - localeCompare: String.prototype.localeCompare (the engine's collation).
   */
  datatype Host = Host(
    parseNumber: string -> Number,
    formatNumber: real -> string,
    localeCompare: (string, string) -> int)

  /** The only exception a conversion of a JSON value can raise. */
  datatype Exception = TypeError

  /** The ECMAScript ToBoolean conversion. */
  predicate Truthy(v: JSValue) {
    match v
    case Undefined => false
    case Null => false
    case Bool(b) => b
    case Num(n) => n != NaN && n != Finite(0.0)
    case Str(s) => s != ""
    case Arr(_) => true
    case Obj(_) => true
  }

  /** `a || b`: the left operand when truthy, the right one otherwise. */
  function Or(a: JSValue, b: JSValue): JSValue {
    if Truthy(a) then a else b
  }

  /** Whether `v.key` can be evaluated: reading a property of null or undefined throws a TypeError. */
  predicate Accessible(v: JSValue) {
    !v.Undefined? && !v.Null?
  }

  /**
   * `v.key` for the property names the handler reads. None of them is an array
   * index, `length` or a member of Object.prototype, so only a plain object's
   * own entry can supply a value.
   */
  function Field(v: JSValue, key: string): (r: JSValue)
    ensures !v.Obj? ==> r == Undefined
    ensures v.Obj? ==> r == if key in v.fields then v.fields[key] else Undefined
  {
    match v
    case Obj(fields) => if key in fields then fields[key] else Undefined
    case _ => Undefined
  }

  /** `[v.k0, v.k1, ...]` for a list of property names. */
  function Fields(v: JSValue, keys: seq<string>): (r: seq<JSValue>)
    ensures |r| == |keys|
    ensures forall i :: 0 <= i < |keys| ==> r[i] == Field(v, keys[i])
  {
    seq(|keys|, i requires 0 <= i < |keys| => Field(v, keys[i]))
  }

  /** The WhiteSpace and LineTerminator characters that `trim` removes. */
  predicate IsWhitespace(c: char) {
    || c == '\t' || c == '\n' || c == '\U{000B}' || c == '\U{000C}' || c == '\r' || c == ' '
    || c == '\U{00A0}' || c == '\U{1680}' || ('\U{2000}' <= c <= '\U{200A}')
    || c == '\U{2028}' || c == '\U{2029}' || c == '\U{202F}' || c == '\U{205F}'
    || c == '\U{3000}' || c == '\U{FEFF}'
  }

  ghost predicate AllWhitespace(s: string) {
    forall i :: 0 <= i < |s| ==> IsWhitespace(s[i])
  }

  /** The number of leading whitespace characters of s. */
  function LeadingWhitespace(s: string): (k: nat)
    ensures k <= |s|
    ensures AllWhitespace(s[..k])
    ensures k < |s| ==> !IsWhitespace(s[k])
  {
    if s == [] || !IsWhitespace(s[0]) then 0
    else
      var k := LeadingWhitespace(s[1..]);
      assert s[1..][..k] == s[1..k + 1];
      k + 1
  }

  /** The length of s without its trailing whitespace characters. */
  function TrailingStart(s: string): (j: nat)
    ensures j <= |s|
    ensures AllWhitespace(s[j..])
    ensures j > 0 ==> !IsWhitespace(s[j - 1])
  {
    if s == [] || !IsWhitespace(s[|s| - 1]) then |s|
    else
      var j := TrailingStart(s[..|s| - 1]);
      assert s[j..] == s[..|s| - 1][j..] + [s[|s| - 1]];
      j
  }

  /**
   * `String.prototype.trim`: s with its leading and trailing whitespace removed.
   * The result is a middle slice of s, everything cut away is whitespace, and
   * the result neither starts nor ends with whitespace.
   */
  function Trim(s: string): (r: string)
    ensures r == "" || (!IsWhitespace(r[0]) && !IsWhitespace(r[|r| - 1]))
    ensures exists i, j :: 0 <= i <= j <= |s| && r == s[i..j] && AllWhitespace(s[..i]) && AllWhitespace(s[j..])
  {
    var i := LeadingWhitespace(s);
    var j := TrailingStart(s);
    if j <= i then
      assert s[..j] + s[j..i] + s[i..] == s;
      assert AllWhitespace(s[j..j]);
      ""
    else
      assert s[j - 1] == s[i..j][j - 1 - i];
      s[i..j]
  }

  /** A string without leading or trailing whitespace is its own trim. */
  lemma TrimmedIsFixed(t: string)
    requires t == "" || (!IsWhitespace(t[0]) && !IsWhitespace(t[|t| - 1]))
    ensures Trim(t) == t
  {
    if t != "" {
      assert LeadingWhitespace(t) == 0;
      assert TrailingStart(t) == |t|;
      assert t[0..|t|] == t;
    }
  }

  /** Trimming twice is trimming once. */
  lemma TrimIdempotent(s: string)
    ensures Trim(Trim(s)) == Trim(s)
  {
    TrimmedIsFixed(Trim(s));
  }

  /** A string made only of whitespace trims to the empty string. */
  lemma TrimAllWhitespace(s: string)
    requires AllWhitespace(s)
    ensures Trim(s) == ""
  {
  }

  /** `a.join(sep)` over strings. */
  function Join(parts: seq<string>, sep: string): string {
    if parts == [] then ""
    else if |parts| == 1 then parts[0]
    else parts[0] + sep + Join(parts[1..], sep)
  }

  /** Number::toString: plain decimal digits for integers below 10^21, the engine's format otherwise. */
  function NumberToString(h: Host, x: real): (r: string)
    ensures x == x.Floor as real && -1000000000000000000000.0 < x < 1000000000000000000000.0 ==>
              r == IntToDecimal(x.Floor)
  {
    if x == x.Floor as real && -1000000000000000000000.0 < x < 1000000000000000000000.0
    then IntToDecimal(x.Floor)
    else h.formatNumber(x)
  }

  function NumberString(h: Host, n: Number): string {
    match n
    case NaN => "NaN"
    case Infinity(negative) => if negative then "-Infinity" else "Infinity"
    case Finite(x) => NumberToString(h, x)
  }

  /**
   * Whether converting v to a primitive throws, as `String(v)` and `Number(v)` do. A JSON
   * value is never callable, so an object with its own `toString` key has no usable
   * `toString`, and the inherited `valueOf` returns the object itself: OrdinaryToPrimitive
   * throws a TypeError. An array is converted by joining its elements, so it throws when
   * one of them does.
   */
  predicate ToPrimitiveThrows(v: JSValue)
    decreases v
  {
    match v
    case Obj(fields) => "toString" in fields
    case Arr(items) => exists i :: 0 <= i < |items| && ToPrimitiveThrows(items[i])
    case _ => false
  }

  /**
   * The ECMAScript ToString conversion, `String(v)`: an array joins its elements with commas,
   * null and undefined elements giving "", and a plain object is "[object Object]".
   */
  function ToString(h: Host, v: JSValue): (r: Result<string, Exception>)
    ensures r.Err? <==> ToPrimitiveThrows(v)
    ensures v.Str? ==> r == Ok(v.s)
    ensures v.Obj? && !ToPrimitiveThrows(v) ==> r == Ok("[object Object]")
    decreases v
  {
    match v
    case Undefined => Ok("undefined")
    case Null => Ok("null")
    case Bool(b) => Ok(if b then "true" else "false")
    case Num(n) => Ok(NumberString(h, n))
    case Str(s) => Ok(s)
    case Arr(items) =>
      if exists i :: 0 <= i < |items| && ToPrimitiveThrows(items[i]) then Err(TypeError)
      else
        Ok(Join(seq(|items|, i requires 0 <= i < |items| =>
                  if items[i].Undefined? || items[i].Null? then "" else ToString(h, items[i]).value), ","))
    case Obj(fields) => if "toString" in fields then Err(TypeError) else Ok("[object Object]")
  }

  /** StringToNumber: a blank string is 0, anything else goes to the engine's numeric grammar. */
  function StringToNumber(h: Host, s: string): (n: Number)
    ensures AllWhitespace(s) ==> n == Finite(0.0)
  {
    var t := Trim(s);
    if t == "" then Finite(0.0) else h.parseNumber(t)
  }

  /**
   * The ECMAScript ToNumber conversion, `Number(v)`. A plain object converts through the
   * string "[object Object]", which is NaN; an array through its joined string.
   */
  function ToNumber(h: Host, v: JSValue): (r: Result<Number, Exception>)
    ensures r.Err? <==> ToPrimitiveThrows(v)
    ensures v.Undefined? ==> r == Ok(NaN)
    ensures v.Null? ==> r == Ok(Finite(0.0))
    ensures v == Bool(true) ==> r == Ok(Finite(1.0))
    ensures v == Bool(false) ==> r == Ok(Finite(0.0))
    ensures v == Str("") ==> r == Ok(Finite(0.0))
    ensures v.Num? ==> r == Ok(v.n)
    ensures v.Obj? && !ToPrimitiveThrows(v) ==> r == Ok(NaN)
  {
    match v
    case Undefined => Ok(NaN)
    case Null => Ok(Finite(0.0))
    case Bool(b) => Ok(Finite(if b then 1.0 else 0.0))
    case Num(n) => Ok(n)
    case Str(s) => Ok(StringToNumber(h, s))
    case Arr(_) =>
      (match ToString(h, v)
       case Ok(s) => Ok(StringToNumber(h, s))
       case Err(e) => Err(e))
    case Obj(fields) => if "toString" in fields then Err(TypeError) else Ok(NaN)
  }
}
