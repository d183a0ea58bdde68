/** The JavaScript values that reach the gateway's string code from a decoded
    JSON body or from the environment, reduced to what that code looks at:
    whether the value is a string and whether it is truthy. */
module JsValues {

  import opened Options

  /** `Nullish` is `undefined` (a missing property) or `null`; `NonString`
      is a number, boolean, array or object, with its truthiness (`0`,
      `NaN` and `false` are falsy, everything else is truthy). */
  datatype Value = Nullish | Str(s: string) | NonString(truthy: bool)

  predicate Truthy(v: Value)
  {
    match v
    case Nullish => false
    case Str(s) => s != ""
    case NonString(t) => t
  }

  /** JavaScript's `a || b`: the left operand when it is truthy, else the
      right one. */
  function Or(a: Value, b: Value): (r: Value)
    ensures Truthy(r) <==> Truthy(a) || Truthy(b)
    ensures Truthy(a) ==> r == a
    ensures !Truthy(a) ==> r == b
  {
    if Truthy(a) then a else b
  }

  /** An environment variable read with a default, `process.env.X || d`:
      an unset and an empty variable both give the default. */
  function Setting(v: Option<string>, default: string): (r: string)
    ensures v.Some? && v.value != "" ==> r == v.value
    ensures v.None? || v.value == "" ==> r == default
    ensures default != "" ==> r != ""
  {
    if v.Some? && v.value != "" then v.value else default
  }
}
