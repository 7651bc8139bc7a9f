/** JavaScript values as they reach the product catalog, together with the two
    pieces of JavaScript semantics the catalog depends on: truthiness (used by
    the `x ? x : y` field merge and by `status || true`) and strict equality
    (used by the duplicate-code check). */
module JsValues {

  /** The values a product field can hold once a request or the JSON file has
      been decoded. Numbers are modelled as integers; `NaN` is not modelled. */
  datatype Value =
    | Undefined
    | Null
    | Bool(b: bool)
    | Num(n: int)
    | Str(s: string)
    | Arr(items: seq<string>)

  /** JavaScript truthiness: `undefined`, `null`, `false`, `0` and `""` are
      falsy; every other value, including an empty array, is truthy. */
  predicate Truthy(v: Value) {
    match v
    case Undefined => false
    case Null => false
    case Bool(b) => b
    case Num(n) => n != 0
    case Str(s) => s != ""
    case Arr(_) => true
  }

  /** `a === b`. Arrays are compared by reference, and two arrays decoded from
      different requests or file reads are distinct objects, so an array is
      never strictly equal to anything here. */
  predicate StrictEq(a: Value, b: Value) {
    !a.Arr? && a == b
  }

  /** `a || b`, which is also the value of `a ? a : b`: the first operand when
      it is truthy, otherwise the second. */
  function Or(a: Value, b: Value): (r: Value)
    ensures r == a || r == b
    ensures Truthy(r) <==> Truthy(a) || Truthy(b)
    ensures Truthy(a) ==> r == a
    ensures !Truthy(a) ==> r == b
  {
    if Truthy(a) then a else b
  }
}
