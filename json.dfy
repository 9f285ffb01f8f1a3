/** The decoded JSON request bodies the handlers receive (`request.data`). */
module Json {
  /** A scalar JSON value: `null` or a string. */
  datatype Scalar = Null | Str(s: string)

  /** A JSON object whose values are scalars, such as one entry of `phones`. */
  type Object = map<string, Scalar>

  /** A top-level value: a scalar, or a list of objects (the `phones` field). */
  datatype Value = Atom(scalar: Scalar) | Objects(items: seq<Object>)

  /** A decoded request body: a JSON object keyed by field name. */
  type Payload = map<string, Value>
}
