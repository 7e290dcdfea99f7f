/** Values as the backend sees them after JSON decoding, and JavaScript truthiness. */
module Values {

  datatype Option<+T> = None | Some(value: T)

  /** A decoded JSON value. Numbers are modelled as integers (no NaN, no fractions). */
  datatype JsValue =
    | Undefined
    | Null
    | Bool(b: bool)
    | Num(n: int)
    | Str(s: string)
    | Arr(items: seq<JsValue>)
    | Obj(fields: map<string, JsValue>)

  /** JavaScript truthiness: `undefined`, `null`, `false`, `0` and `""` are falsy. */
  predicate Truthy(v: JsValue) {
    match v
    case Undefined => false
    case Null => false
    case Bool(b) => b
    case Num(n) => n != 0
    case Str(s) => s != ""
    case Arr(_) => true
    case Obj(_) => true
  }

  /** A string-valued body field is truthy when it is present and not empty. */
  predicate Present(o: Option<string>) {
    o.Some? && o.value != ""
  }

  /** `o || fallback` for an optional string field. */
  function OrElse(o: Option<string>, fallback: string): (r: string)
    ensures Present(o) ==> r == o.value
    ensures !Present(o) ==> r == fallback
    ensures fallback != "" ==> r != ""
  {
    if Present(o) then o.value else fallback
  }

  /** The field `key` of a decoded body object; a missing key reads as `undefined`. */
  function Field(body: map<string, JsValue>, key: string): (v: JsValue)
    ensures key !in body ==> v == Undefined
    ensures key in body ==> v == body[key]
  {
    if key in body then body[key] else Undefined
  }
}
