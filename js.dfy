/**
 * The JavaScript values the renderer inspects, with ToBoolean ("truthiness")
 * and property access.
 */
module Js {
  /**
   * A JavaScript value. Numbers are kept to integers plus NaN: only their
   * truthiness matters here. Functions are identified by name.
   */
  datatype JsValue =
    | Undefined
    | Null
    | Bool(b: bool)
    | Number(n: int)
    | NaN
    | Str(s: string)
    | Symbol(description: string)
    | Function(name: string)
    | Object(properties: map<string, JsValue>)

  /** ToBoolean of ECMA-262: undefined, null, false, 0, NaN and "" are falsy. */
  predicate Truthy(v: JsValue) {
    match v
    case Undefined => false
    case Null => false
    case Bool(b) => b
    case Number(n) => n != 0
    case NaN => false
    case Str(s) => s != ""
    case Symbol(_) => true
    case Function(_) => true
    case Object(_) => true
  }

  /**
   * `v?.key`: the own property of an object, undefined for a missing key and
   * for every non-object (optional chaining also turns null and undefined
   * into undefined instead of throwing).
   */
  function Get(v: JsValue, key: string): (r: JsValue)
    ensures r != Undefined ==> v.Object? && key in v.properties
  {
    if v.Object? && key in v.properties then v.properties[key] else Undefined
  }
}
