/**
 * The slice of JavaScript's runtime semantics the client's response handling
 * depends on: JSON-like values, truthiness and `||`, property access with and
 * without optional chaining, string conversion, exceptions, and the fields of a
 * fetch `Response` that the client reads.
 */
module Js {
  import opened Wrappers
  import Text

  /** A value produced by `res.json()`, or `undefined`. Numbers are restricted to integers. */
  datatype JValue =
    | JUndefined
    | JNull
    | JBool(b: bool)
    | JNum(n: int)
    | JStr(s: string)
    | JArr(items: seq<JValue>)
    | JObj(fields: map<string, JValue>)

  /** JavaScript truthiness: `undefined`, `null`, `false`, `0` and `""` are falsy, everything else (even `[]` and `{}`) is truthy. */
  predicate Truthy(v: JValue) {
    match v
    case JUndefined => false
    case JNull => false
    case JBool(b) => b
    case JNum(n) => n != 0
    case JStr(s) => s != ""
    case JArr(_) => true
    case JObj(_) => true
  }

  /** `a || b`: the first operand when it is truthy, otherwise the second. */
  function Or(a: JValue, b: JValue): JValue {
    if Truthy(a) then a else b
  }

  /** `v?.key`: an own field of an object; `undefined` for a missing key and for every non-object. */
  function OptGet(v: JValue, key: string): JValue {
    if v.JObj? && key in v.fields then v.fields[key] else JUndefined
  }

  /** What a call throws: `new Error(message)`, a TypeError raised by the engine, or the RangeError of an invalid date. */
  datatype Exception = Raised(message: string) | TypeFault | RangeFault

  /** `v.key`: the same as `v?.key`, except that reading a property of `null` or `undefined` throws a TypeError. */
  function Get(v: JValue, key: string): (r: Result<JValue, Exception>)
    ensures r.Failure? <==> v == JNull || v == JUndefined
    ensures r.Failure? ==> r.error == TypeFault
    ensures r.Success? ==> r.value == OptGet(v, key)
  {
    if v == JNull || v == JUndefined then Failure(TypeFault) else Success(OptGet(v, key))
  }

  /** The string inside a string value; every other value gives `None`. */
  function AsString(v: JValue): Option<string> {
    if v.JStr? then Some(v.s) else None
  }

  /** `String(v)`, as `new Error(v)` applies it to its message argument. */
  function ToStr(v: JValue): string
    decreases v
  {
    match v
    case JUndefined => "undefined"
    case JNull => "null"
    case JBool(b) => if b then "true" else "false"
    case JNum(n) => Text.IntToString(n)
    case JStr(s) => s
    case JObj(_) => "[object Object]"
    case JArr(items) =>
      // Array.prototype.join(","): null and undefined elements become empty strings
      JoinComma(seq(|items|, i requires 0 <= i < |items| =>
        assert items[i] in items;
        if items[i] == JNull || items[i] == JUndefined then "" else ToStr(items[i])))
  }

  /** The strings of `parts` separated by commas. */
  function JoinComma(parts: seq<string>): string {
    if |parts| == 0 then "" else if |parts| == 1 then parts[0]
    else JoinComma(parts[..|parts| - 1]) + "," + parts[|parts| - 1]
  }

  /**
   * The parts of a fetch `Response` the client reads: `ok`, `status`, and the
   * outcome of `res.json()`, where `None` stands for a body that did not parse.
   */
  datatype Response = Response(ok: bool, status: nat, body: Option<JValue>)

  /** The `data` the client works with: the parsed body, or the `null` it started from when parsing threw. */
  function Data(res: Response): JValue {
    res.body.GetOr(JNull)
  }
}
