/** The values a request body or a parsed metadata block can hold: what
    `request.json()` and `JSON.parse` hand to the task code. */
module JsonValue {
  import opened Base

  /** A JavaScript number; the non-finite cases are kept so that
      `Number.isFinite` has something to reject. */
  datatype Number = Finite(value: real) | NaN | Infinity | NegInfinity

  datatype Json =
    | JNull
    | JBool(b: bool)
    | JNum(n: Number)
    | JStr(s: string)
    | JArr(items: seq<Json>)
    | JObj(fields: map<string, Json>)

  /** JavaScript truthiness of a possibly `undefined` (= `None`) value. */
  predicate Truthy(v: Option<Json>)
  {
    match v
    case None => false
    case Some(JNull) => false
    case Some(JBool(b)) => b
    case Some(JNum(n)) => n.Infinity? || n.NegInfinity? || (n.Finite? && n.value != 0.0)
    case Some(JStr(s)) => s != []
    case Some(JArr(_)) => true
    case Some(JObj(_)) => true
  }

  /** `v.key`: a property read, `undefined` unless `v` is an object holding `key`.
      (No key the task code reads exists on strings, numbers or arrays.) */
  function Get(v: Json, key: string): (r: Option<Json>)
    ensures r.Some? <==> v.JObj? && key in v.fields
    ensures r.Some? ==> r.value == v.fields[key]
  {
    if v.JObj? && key in v.fields then Some(v.fields[key]) else None
  }

  /** Destructuring `const { key } = payload ?? {}` on an optional payload. */
  function Field(payload: Option<Json>, key: string): Option<Json>
  {
    if payload.Some? then Get(payload.value, key) else None
  }

  /** `{}` */
  const EmptyObject: Json := JObj(map[])
}
