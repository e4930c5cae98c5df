/** The few JavaScript value semantics the lead intake relies on: optional values
    (`undefined`/`null`), the field values a parsed JSON body can carry here,
    truthiness (`||`, `Boolean(...)`, `if (x)`) and `String(...)`. */
module JsValue {

  /** `undefined`/`null` versus a present value. */
  datatype Option<+T> = None | Some(value: T)

  /** A field read from a parsed request body: missing (or JSON `null`), a string,
      or a boolean. Numbers and nested objects are not modelled. */
  datatype Value = Undefined | Str(s: string) | Bool(b: bool)

  /** JavaScript truthiness restricted to `Value`. */
  predicate Truthy(v: Value) {
    match v
    case Undefined => false
    case Str(s) => s != ""
    case Bool(b) => b
  }

  /** `String(v)`. */
  function ToText(v: Value): (t: string)
    ensures v.Str? ==> t == v.s
    ensures v.Bool? ==> t == (if v.b then "true" else "false")
  {
    match v
    case Undefined => "undefined"
    case Str(s) => s
    case Bool(b) => if b then "true" else "false"
  }

  /** `String(v || '')`: the text of a truthy value, the empty string otherwise. */
  function TextOrEmpty(v: Value): (t: string)
    ensures t == "" <==> !Truthy(v)
    ensures Truthy(v) ==> t == ToText(v)
  {
    if Truthy(v) then ToText(v) else ""
  }

  /** `x || null` on a possibly-undefined string: empty strings become `null`. */
  function NonEmptyOrNull(x: Option<string>): (r: Option<string>)
    ensures r.Some? <==> x.Some? && x.value != ""
    ensures r.Some? ==> r == x
  {
    if x.Some? && x.value != "" then x else None
  }
}
