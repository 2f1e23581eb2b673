/**
 * JavaScript values as they reach the request handlers: the values a parsed
 * JSON body can hold, plus `undefined` for an absent property.  Numbers are
 * integral here; the handlers only compare and store them.
 */
module JsValue {

  datatype Value =
    | Undefined
    | Null
    | Bool(b: bool)
    | Num(n: int)
    | Str(s: string)
    | Arr(items: seq<Value>)
    | Obj(fields: map<string, Value>)

  /** ToBoolean: what `!v`, `v ? … : …` and `v || …` test. */
  predicate Truthy(v: Value) {
    match v
    case Undefined => false
    case Null => false
    case Bool(b) => b
    case Num(n) => n != 0
    case Str(s) => s != ""
    case Arr(_) => true
    case Obj(_) => true
  }

  /** The `typeof` operator (note that `typeof null` is "object"). */
  function TypeOf(v: Value): string {
    match v
    case Undefined => "undefined"
    case Null => "object"
    case Bool(_) => "boolean"
    case Num(_) => "number"
    case Str(_) => "string"
    case Arr(_) => "object"
    case Obj(_) => "object"
  }

  /** `a || b`: the first operand when it is truthy, otherwise the second. */
  function Or(a: Value, b: Value): (r: Value)
    ensures Truthy(a) ==> r == a
    ensures !Truthy(a) ==> r == b
    ensures Truthy(r) <==> Truthy(a) || Truthy(b)
  {
    if Truthy(a) then a else b
  }

  /**
   * `v?.key` for the keys the handlers read ("searchTerm", "movie", "id",
   * "poster_path", "query"): only an object can carry them as own
   * properties, so every other value yields `undefined`.
   */
  function OptionalField(v: Value, key: string): (r: Value)
    ensures r != Undefined ==> v.Obj? && key in v.fields && v.fields[key] == r
    ensures v.Obj? && key in v.fields ==> r == v.fields[key]
  {
    if v.Obj? && key in v.fields then v.fields[key] else Undefined
  }

  /**
   * A property read during destructuring (`const {key} = v`): it throws a
   * TypeError, modelled as `false` in the first component, on `undefined`
   * and `null`, and otherwise behaves as `v?.key`.
   */
  function Destructure(v: Value, key: string): (r: (bool, Value))
    ensures !r.0 <==> v == Undefined || v == Null
    ensures r.0 ==> r.1 == OptionalField(v, key)
  {
    if v == Undefined || v == Null then (false, Undefined) else (true, OptionalField(v, key))
  }

  /** The decimal digits of a natural number, most significant first. */
  function NatText(n: nat): (r: string)
    ensures |r| >= 1
    ensures forall i :: 0 <= i < |r| ==> '0' <= r[i] <= '9'
    ensures r[0] == '0' ==> n == 0
    decreases n
  {
    if n < 10 then [DigitChar(n)] else NatText(n / 10) + [DigitChar(n % 10)]
  }

  function DigitChar(d: nat): (c: char)
    requires d < 10
    ensures '0' <= c <= '9'
  {
    ['0', '1', '2', '3', '4', '5', '6', '7', '8', '9'][d]
  }

  /** The numeric value of a string of decimal digits: the inverse of NatText. */
  function DecimalValue(s: string): nat
    requires forall i :: 0 <= i < |s| ==> '0' <= s[i] <= '9'
  {
    if s == [] then 0 else 10 * DecimalValue(s[..|s| - 1]) + ((s[|s| - 1] as int) - ('0' as int))
  }

  lemma {:induction false} DecimalValueOfNatText(n: nat)
    ensures DecimalValue(NatText(n)) == n
    decreases n
  {
    var r := NatText(n);
    if n >= 10 {
      DecimalValueOfNatText(n / 10);
      assert r[..|r| - 1] == NatText(n / 10);
    }
  }

  /** Number-to-string conversion for integral numbers below 10^21. */
  function IntText(n: int): string {
    if n < 0 then "-" + NatText(-n) else NatText(n)
  }

  /**
   * ToString as a template literal `${v}` applies it: arrays join their
   * items with "," (null and undefined items become empty), plain objects
   * print as "[object Object]".
   */
  function TemplateText(v: Value): (r: string)
    ensures v.Str? ==> r == v.s
    ensures v.Num? ==> |r| >= 1
    decreases v
  {
    match v
    case Undefined => "undefined"
    case Null => "null"
    case Bool(b) => if b then "true" else "false"
    case Num(n) => IntText(n)
    case Str(s) => s
    case Arr(items) => JoinItems(items)
    case Obj(_) => "[object Object]"
  }

  /** Array.prototype.join(",") over the items of an array. */
  function JoinItems(items: seq<Value>): string
    decreases items
  {
    if items == [] then ""
    else
      var head := if items[0] == Undefined || items[0] == Null then "" else TemplateText(items[0]);
      if |items| == 1 then head else head + "," + JoinItems(items[1..])
  }
}
