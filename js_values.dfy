/** Values as the TypeScript sources see them: optional JSON or header
    values and JavaScript truthiness. */
module JsValues {

  /** `undefined`/`null` (None) or a present value. */
  datatype Option<+T> = None | Some(value: T)

  /** JavaScript truthiness of a value read as an optional string:
      `undefined`, `null` and `""` are falsy, every other string is truthy. */
  predicate Truthy(v: Option<string>)
  {
    v.Some? && v.value != ""
  }
}
