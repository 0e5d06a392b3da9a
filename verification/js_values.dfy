/** The JavaScript values that flow through the request bodies and the JSON
    record stores, with the `||`/truthiness and spread semantics the source
    depends on. Numbers are integers here (no `NaN`, no fractions). */
module JsValues {
  import opened Maybe
  import opened Text

  datatype Value = Undefined | Null | Bool(b: bool) | Num(n: int) | Str(s: string)

  /** JavaScript truthiness: `undefined`, `null`, `false`, `0` and `""` are falsy. */
  predicate Truthy(v: Value) {
    match v
    case Undefined => false
    case Null => false
    case Bool(b) => b
    case Num(n) => n != 0
    case Str(s) => s != ""
  }

  /** `v || fallback`. */
  function Or(v: Value, fallback: Value): (r: Value)
    ensures r == v || r == fallback
    ensures Truthy(r) <==> Truthy(v) || Truthy(fallback)
  {
    if Truthy(v) then v else fallback
  }

  /** The laws of `||` the defaulting code relies on: a truthy value is kept,
      a falsy one is discarded, the operator is associative, and defaulting
      twice with the same fallback is defaulting once. */
  lemma OrLaws(a: Value, b: Value, c: Value)
    ensures Truthy(a) ==> Or(a, b) == a
    ensures !Truthy(a) ==> Or(a, b) == b
    ensures Or(Or(a, b), c) == Or(a, Or(b, c))
    ensures Or(Or(a, b), b) == Or(a, b)
  {
  }

  /** A plain object; a missing key reads as `undefined`. */
  type Object = map<string, Value>

  function Get(o: Object, k: string): Value {
    if k in o then o[k] else Undefined
  }

  /** `String(v)` for the scalar values modelled here. */
  function ToStr(v: Value): string {
    match v
    case Undefined => "undefined"
    case Null => "null"
    case Bool(b) => if b then "true" else "false"
    case Num(n) => if n < 0 then "-" + NatToString(-n) else NatToString(n)
    case Str(s) => s
  }

  /** `v.toString()`: reading a method of `undefined` or `null` throws a
      `TypeError` (`None`); the other values print as `String(v)`. */
  function ToStringCall(v: Value): (r: Option<string>)
    ensures r.None? <==> v == Undefined || v == Null
    ensures r.Some? ==> r.value == ToStr(v)
  {
    if v == Undefined || v == Null then None else Some(ToStr(v))
  }
}
