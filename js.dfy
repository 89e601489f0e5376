/**
 * The part of JavaScript semantics the handlers depend on: values produced
 * by `JSON.parse`, truthiness, property reads (which throw on null and
 * undefined), `String(v)` as `new Error(v)` applies it, and thrown errors.
 */
module Js {
  import opened Wrappers
  import Utf16

  /** JSON numbers the model keeps: the integers a double holds exactly. */
  type SafeInteger = x: int | -0x1F_FFFF_FFFF_FFFF <= x <= 0x1F_FFFF_FFFF_FFFF

  /** A value `JSON.parse` can produce. */
  datatype Json =
    | Null
    | Bool(b: bool)
    | Num(n: SafeInteger)
    | Str(s: string)
    | Arr(items: seq<Json>)
    | Obj(fields: map<string, Json>)

  /** A value reached by reading properties of parsed JSON: a missing property reads as `undefined`. */
  datatype Value = Undefined | Def(json: Json)

  /** How an expression completes: with a value, or by throwing an error with a message. */
  datatype Completion<+T> = Normal(value: T) | Throw(message: string)

  /** JavaScript truthiness: false, 0, "", null and undefined are falsy; every array and object is truthy. */
  predicate Truthy(v: Value)
  {
    match v
    case Undefined => false
    case Def(Null) => false
    case Def(Bool(b)) => b
    case Def(Num(n)) => n != 0
    case Def(Str(s)) => s != ""
    case Def(_) => true
  }

  /** `a || b` on a value and a fallback. */
  function Or(a: Value, b: Json): (r: Json)
    ensures Truthy(a) ==> Def(r) == a
    ensures !Truthy(a) ==> r == b
  {
    if Truthy(a) then a.json else b
  }

  /** The TypeError message V8 gives for reading a property of null or undefined. */
  function ReadError(holder: string, key: string): string
  {
    "Cannot read properties of " + holder + " (reading '" + key + "')"
  }

  /** An object's own property; `undefined` when it is absent or the value is no object. */
  function Field(data: Json, key: string): Value
  {
    if data.Obj? && key in data.fields then Def(data.fields[key]) else Undefined
  }

  /**
   * `v.key` for a named property other than `length`: an object's own
   * value, `undefined` on every other value, a TypeError on null and
   * undefined.
   */
  function Read(v: Value, key: string): (r: Completion<Value>)
    requires key != "length"
    ensures r.Throw? <==> v == Undefined || v == Def(Null)
    ensures v.Def? && !v.json.Null? ==> r == Normal(Field(v.json, key))
  {
    match v
    case Undefined => Throw(ReadError("undefined", key))
    case Def(Null) => Throw(ReadError("null", key))
    case Def(Obj(m)) => Normal(if key in m then Def(m[key]) else Undefined)
    case Def(_) => Normal(Undefined)
  }

  /** `v.length === 0`. */
  function LengthIsZero(v: Value): (r: Completion<bool>)
    ensures r.Throw? <==> v == Undefined || v == Def(Null)
    ensures v.Def? && v.json.Arr? ==> r == Normal(v.json.items == [])
    ensures v.Def? && v.json.Str? ==> r == Normal(v.json.s == "")
  {
    match v
    case Undefined => Throw(ReadError("undefined", "length"))
    case Def(Null) => Throw(ReadError("null", "length"))
    case Def(Arr(items)) => Normal(items == [])
    case Def(Str(s)) =>
      assert |Utf16.Encode(s)| >= |s|;
      Normal(|Utf16.Encode(s)| == 0)
    case Def(Obj(m)) => Normal("length" in m && m["length"] == Num(0))
    case Def(_) => Normal(false)
  }

  /** The decimal digits of n. */
  function Digits(n: nat): (r: string)
    ensures r != [] && forall k | 0 <= k < |r| :: '0' <= r[k] <= '9'
  {
    if n < 10 then [('0' as int + n) as char] else Digits(n / 10) + [('0' as int + n % 10) as char]
  }

  /** `String(n)` for an integer below 2^53 in magnitude. */
  function NumberText(n: int): (r: string)
    ensures r != []
  {
    if n < 0 then "-" + Digits(-n) else Digits(n)
  }

  const ObjectToPrimitiveError: string := "Cannot convert object to primitive value"

  /**
   * `String(v)`: an object converts through `Object.prototype.toString`
   * unless it has an own `toString` (parsed JSON never holds a function,
   * so the conversion then throws); an array is its elements' texts joined
   * with commas, null elements giving the empty text.
   */
  function ToText(v: Json): (r: Completion<string>)
    ensures v.Str? ==> r == Normal(v.s)
    ensures (v.Bool? || v.Num? || v.Null?) ==> r.Normal? && r.value != ""
    decreases v, if v.Arr? then |v.items| + 1 else 0
  {
    match v
    case Null => Normal("null")
    case Bool(b) => Normal(if b then "true" else "false")
    case Num(n) => Normal(NumberText(n))
    case Str(s) => Normal(s)
    case Obj(m) => if "toString" in m then Throw(ObjectToPrimitiveError) else Normal("[object Object]")
    case Arr(items) => Join(v, 0)
  }

  /** The comma-joined texts of the elements of an array from index i on. */
  function Join(a: Json, i: nat): (r: Completion<string>)
    requires a.Arr? && i <= |a.items|
    decreases a, |a.items| - i
  {
    if i == |a.items| then Normal("")
    else
      var head := if a.items[i] == Null then Normal("") else ToText(a.items[i]);
      match head
      case Throw(m) => Throw(m)
      case Normal(h) =>
        if i + 1 == |a.items| then Normal(h)
        else
          match Join(a, i + 1)
          case Throw(m) => Throw(m)
          case Normal(t) => Normal(h + "," + t)
  }

  /** An empty array, although truthy, converts to the empty text. */
  lemma EmptyArrayText()
    ensures Truthy(Def(Arr([]))) && ToText(Arr([])) == Normal("")
  {
  }
}
