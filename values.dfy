/**
 * The JavaScript values the client stores hold, once their JSON text is decoded.
 *
 * A message record is a plain object; the model keeps it as a map from
 * property name to value, so that object spread (`{...a, ...b}`) is map
 * union `a + b` and reading a missing property gives `Undefined`.
 */
module JsValues {
  import opened Keys

  datatype Option<+T> = None | Some(value: T)

  /** A message tag, `{id, name, color}`. */
  datatype Tag = Tag(id: int, name: string, color: string)

  /** The property values a decoded payload or a stored record can hold. */
  datatype Value =
    | Undefined
    | Null
    | Bool(b: bool)
    | Num(n: int)
    | Str(s: string)
    | TagObj(tag: Tag)

  /** A plain object: its own properties and their values. */
  type Record = map<string, Value>

  /** Property access `r[f]`: a missing property reads as `undefined`. */
  function Field(r: Record, f: string): (v: Value)
    ensures f !in r ==> v == Undefined
    ensures f in r ==> v == r[f]
  {
    if f in r then r[f] else Undefined
  }

  /**
   * The key a value denotes when it is used as an IndexedDB key: numbers and
   * strings are keys; `undefined`, `null`, booleans and objects are not.
   */
  function AsKey(v: Value): (k: Option<Key>)
    ensures k.Some? <==> v.Num? || v.Str?
    ensures v.Num? ==> k == Some(NumKey(v.n))
    ensures v.Str? ==> k == Some(StrKey(v.s))
  {
    match v
    case Num(n) => Some(NumKey(n))
    case Str(s) => Some(StrKey(s))
    case _ => None
  }
}
