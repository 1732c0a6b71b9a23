/**
 * JSON payloads as the dashboard and the backend pass them around, with
 * the JavaScript notions the views depend on: `undefined` for a missing
 * property, property lookup and truthiness.
 */
module Json {

  datatype Value =
    | Undefined
    | Null
    | Bool(b: bool)
    | Num(n: int)
    | Str(s: string)
    | Arr(items: seq<Value>)
    | Obj(fields: map<string, Value>)

  /** JavaScript `v.key`: the property if `v` is an object holding it, `undefined` otherwise. */
  function Get(v: Value, key: string): (r: Value)
  {
    if v.Obj? && key in v.fields then v.fields[key] else Undefined
  }

  /** JavaScript truthiness: `undefined`, `null`, `false`, `0` and `""` are falsy. */
  predicate Truthy(v: Value)
  {
    match v
    case Undefined => false
    case Null => false
    case Bool(b) => b
    case Num(n) => n != 0
    case Str(s) => s != ""
    case Arr(_) => true
    case Obj(_) => true
  }

  /** Reading a property of `null` or `undefined` throws a TypeError. */
  predicate Nullish(v: Value)
  {
    v.Undefined? || v.Null?
  }
}
