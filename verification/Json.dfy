/** JSON values as the portal's code sees them after parsing. */
module Json {

  /** Objects are maps: the revision of a state sorts keys, so their order carries nothing. */
  datatype Json =
    | Null
    | Bool(b: bool)
    | Int(n: int)
    | Float(text: string)
    | Str(s: string)
    | Arr(items: seq<Json>)
    | Obj(fields: map<string, Json>)

  /** `value.get(key, default)` of an object; the default for anything that is not an object. */
  function Get(v: Json, key: string, default: Json): Json {
    if v.Obj? && key in v.fields then v.fields[key] else default
  }

  predicate Has(v: Json, key: string) {
    v.Obj? && key in v.fields
  }

  /** Python's truth value. */
  predicate Truthy(v: Json) {
    match v
    case Null => false
    case Bool(b) => b
    case Int(n) => n != 0
    case Float(text) => text != "0.0" && text != "-0.0"
    case Str(s) => s != ""
    case Arr(items) => items != []
    case Obj(fields) => fields != map[]
  }

  /** `state_revision`: SHA-256 of the canonical text, taken as injective. */
  datatype Revision = Revision(of: Json)
}
