/**
 * The scalar JavaScript values the core compares against: the two "absent" values
 * `undefined` and `null`, strings, and the other primitives, kept distinct so that
 * strict equality (`===`) can be modelled as datatype equality.
 */
module JsValues {

  datatype Value =
    | Undefined
    | Null
    | Text(text: string)
    | Number(number: int)
    | Boolean(boolean: bool)

  /** `v !== null && v !== undefined && v !== ""`: the value is there and is not the empty string. */
  predicate IsFilled(v: Value)
  {
    v != Null && v != Undefined && v != Text("")
  }
}
