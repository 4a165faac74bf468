/**
 * An abstract stand-in for the values `JSON.parse` produces. The parser and
 * the serializer themselves are not modelled: operations that use them take
 * them as function parameters.
 */
module Json {
  import opened Wrappers

  /** A parsed JSON value. Numbers are integers: no payload of the core stores a fraction. */
  datatype Json =
    | JNull
    | JBool(b: bool)
    | JNum(n: int)
    | JStr(s: string)
    | JArr(items: seq<Json>)
    | JObj(fields: map<string, Json>)

  /**
   * The outcome of reading property `key` of a parsed value in JavaScript:
   * it throws on `null`, is `undefined` when the property is missing, and
   * otherwise yields the property's value.
   */
  datatype Access = Throws | Undefined | Value(v: Json)

  /** JavaScript's `value.key` on a parsed value. */
  function Get(v: Json, key: string): (a: Access)
    ensures a.Throws? <==> v.JNull?
    ensures a.Value? <==> v.JObj? && key in v.fields
    ensures a.Value? ==> a.v == v.fields[key]
  {
    match v
    case JNull => Throws
    case JObj(fields) => if key in fields then Value(fields[key]) else Undefined
    case _ => Undefined
  }

  /** JavaScript truthiness of a property read (`undefined` is falsy). */
  predicate Truthy(a: Access)
    requires !a.Throws?
  {
    match a
    case Undefined => false
    case Value(v) =>
      match v
      case JNull => false
      case JBool(b) => b
      case JNum(n) => n != 0
      case JStr(s) => s != ""
      case _ => true
  }

  /** The string a property read yields when it is a non-empty string (`x.key || ''` restricted to strings). */
  function StringOr(a: Access, default: string): (r: string)
    ensures a.Value? && a.v.JStr? && a.v.s != "" ==> r == a.v.s
    ensures !(a.Value? && a.v.JStr? && a.v.s != "") ==> r == default
  {
    if a.Value? && a.v.JStr? && a.v.s != "" then a.v.s else default
  }

  /** A two-field object `{k1: v1, k2: v2}` as `JSON.stringify` receives it. */
  function Object2(k1: string, v1: Json, k2: string, v2: Json): (o: Json)
    requires k1 != k2
    ensures o.JObj? && o.fields.Keys == {k1, k2}
    ensures Get(o, k1) == Value(v1) && Get(o, k2) == Value(v2)
  {
    JObj(map[k1 := v1, k2 := v2])
  }

  /** `JSON.stringify` gives back text that `JSON.parse` reads as the same value. */
  predicate RoundTrips(parse: string -> Option<Json>, stringify: Json -> string, v: Json) {
    parse(stringify(v)) == Some(v)
  }
}
