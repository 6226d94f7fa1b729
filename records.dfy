/**
 * The JavaScript objects that flow through the application, modelled as maps from property
 * names to values, so that object spread (`{ ...a, ...b }`) is map union `a + b` (right wins).
 */
module Records {
  import opened Wrappers

  /** The kinds of value the application's records hold. */
  datatype Value = Undefined | Null | Str(s: string) | Num(n: int)

  /** A plain object: property name to value. */
  type Record = map<string, Value>

  /** `r[key]`: a missing property reads as `undefined`. */
  function Get(r: Record, key: string): Value {
    if key in r then r[key] else Undefined
  }

  /** JavaScript truthiness of a value. */
  predicate Truthy(v: Value) {
    match v
    case Str(s) => s != ""
    case Num(n) => n != 0
    case _ => false
  }

  /** `a || b`: the first operand when it is truthy, otherwise the second. */
  function Or(a: Value, b: Value): (r: Value)
    ensures Truthy(a) ==> r == a
    ensures !Truthy(a) ==> r == b
  {
    if Truthy(a) then a else b
  }

  /**
   * The string held by `r[key]`, or `None` when the property is missing or not a string: the
   * `item.key?.toLowerCase()` chains of the source short-circuit on a missing property.
   */
  function TextOf(r: Record, key: string): (t: Option<string>)
    ensures t.Some? <==> key in r && r[key].Str?
    ensures t.Some? ==> r[key] == Str(t.value)
  {
    match Get(r, key)
    case Str(s) => Some(s)
    case _ => None
  }

  /** `r.key || ''` for a property that holds a string or nothing. */
  function TextOr(r: Record, key: string): (t: string)
    ensures t == TextOf(r, key).GetOr("")
  {
    match Get(r, key)
    case Str(s) => s
    case _ => ""
  }

  /** The two media kinds; their names are the path segments of the metadata service. */
  datatype MediaType = Movie | Tv

  function TypeName(t: MediaType): string {
    match t
    case Movie => "movie"
    case Tv => "tv"
  }
}
