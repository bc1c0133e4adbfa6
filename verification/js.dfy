/**
 * The JavaScript values the HTTP handlers see: numbers with their non-finite values,
 * JSON documents, property lookup, truthiness and `typeof`.
 */
module Js {
  import opened Seqs

  /** A JavaScript number: a finite value, or one of the three non-finite values. */
  datatype Number = Finite(value: real) | NaN | PositiveInfinity | NegativeInfinity

  /** `Number.isFinite`. */
  predicate IsFinite(n: Number) {
    n.Finite?
  }

  /**
   * A JSON document as `request.json()` delivers it. Parsing never produces `NaN`, but
   * a literal too large for a double, such as `1e400`, parses to an infinity.
   */
  datatype Json =
    | JNull
    | JBool(b: bool)
    | JNumber(n: Number)
    | JString(s: string)
    | JArray(items: seq<Json>)
    | JObject(fields: map<string, Json>)

  /** The result of `typeof`, with `"undefined"` for a missing property. */
  datatype TypeTag = UndefinedType | ObjectType | BooleanType | NumberType | StringType

  /** `typeof v`, where a missing property reads as `undefined`; `typeof null` is `"object"`. */
  function TypeOf(v: Option<Json>): TypeTag {
    match v
    case None => UndefinedType
    case Some(JNull) => ObjectType
    case Some(JBool(_)) => BooleanType
    case Some(JNumber(_)) => NumberType
    case Some(JString(_)) => StringType
    case Some(JArray(_)) => ObjectType
    case Some(JObject(_)) => ObjectType
  }

  /** `!v`: `null`, `false`, `0`, `NaN` and the empty string are falsy. */
  predicate Falsy(v: Json) {
    match v
    case JNull => true
    case JBool(b) => !b
    case JNumber(n) => n == NaN || n == Finite(0.0)
    case JString(s) => s == ""
    case _ => false
  }

  /**
   * `v[key]` on a value read from JSON: an object's own property, and nothing for
   * every other value (no JSON document supplies the data fields on arrays or
   * primitives).
   */
  function Field(v: Json, key: string): Option<Json> {
    if v.JObject? && key in v.fields then Some(v.fields[key]) else None
  }
}
