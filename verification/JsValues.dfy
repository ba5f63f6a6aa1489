/** JavaScript values as far as the filters look at them, and the property read that may throw. */
module JsValues {
  import opened Options

  datatype Value =
    | Undefined
    | Null
    | Bool(b: bool)
    | Number(r: real)
    | Str(s: string)
    | BigInt(n: int)
    | Obj(fields: Fields)

  /** The own properties of an object. */
  type Fields = map<string, Value>

  /** `fields[key]`: an absent property reads as undefined. */
  function Get(fields: Fields, key: string): Value {
    if key in fields then fields[key] else Undefined
  }

  /** Reading any property of undefined or null throws a TypeError. */
  predicate Nullish(v: Value) {
    v.Undefined? || v.Null?
  }

  /** `v.name` for a `v` that is not nullish; the primitives have none of the properties read here. */
  function Prop(v: Value, name: string): Value
    requires !Nullish(v)
  {
    if v.Obj? then Get(v.fields, name) else Undefined
  }

  /** The text that the nested property at `path` holds, if it holds one. */
  function TextIn(v: Value, path: seq<string>): Option<string>
    decreases path
  {
    if path == [] then (if v.Str? then Some(v.s) else None)
    else if v.Obj? then TextIn(Get(v.fields, path[0]), path[1..])
    else None
  }
}
