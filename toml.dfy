/**
 * The decoded form of a TOML document, as a TOML decoder hands it over:
 * a top-level table of keys to values. Decoding text into this tree is
 * not modelled; a file that fails to decode is a separate case of
 * FileSystem.Content.
 */
module Toml {

  /** A TOML value. Floats are not represented. */
  datatype Value =
    | String(s: string)
    | Integer(i: int)
    | Boolean(b: bool)
    | DateTime(text: string)
    | Array(items: seq<Value>)
    | Table(entries: map<string, Value>)

  const EmptyTable: Value := Table(map[])

  /** Python's truth value of the decoded object (`bool(v)`). */
  predicate Truthy(v: Value) {
    match v
    case String(s) => s != ""
    case Integer(i) => i != 0
    case Boolean(b) => b
    case DateTime(_) => true
    case Array(items) => items != []
    case Table(entries) => entries != map[]
  }

  /** `d.get(key, default)` on a decoded table. */
  function GetOr(d: map<string, Value>, key: string, default: Value): (v: Value)
    ensures key in d ==> v == d[key]
    ensures key !in d ==> v == default
  {
    if key in d then d[key] else default
  }
}
