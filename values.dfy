/** The scalar values a request body and a stored record carry, and JavaScript's
    truthiness on them. */
module Values {

  /** A field value: absent (`undefined`), a string or an integer. */
  datatype Value = Absent | Str(s: string) | Num(n: int)

  /** JavaScript truthiness restricted to these values: `undefined`, `""` and `0`
      are falsy, every other string and number is truthy. */
  predicate Truthy(v: Value) {
    match v
    case Absent => false
    case Str(s) => s != ""
    case Num(n) => n != 0
  }

  /** JavaScript `a || b`: `a` when it is truthy, otherwise `b`. */
  function OrElse(a: Value, b: Value): (r: Value)
    ensures r == a || r == b
    ensures Truthy(r) <==> Truthy(a) || Truthy(b)
    ensures Truthy(a) ==> r == a
  {
    if Truthy(a) then a else b
  }

  /** A parsed JSON request body: its properties by name. */
  type Body = map<string, Value>

  /** `body.f`: the property, or `undefined` when the body has none by that name. */
  function Field(body: Body, f: string): Value {
    if f in body then body[f] else Absent
  }
}
