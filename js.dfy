/** The few pieces of JavaScript value semantics the supervisor relies on. */
module Js {

  /** A JavaScript value as far as the supervisor distinguishes them.
      NaN is not represented: numbers are reals. */
  datatype JsValue =
    | Undefined
    | Null
    | Bool(b: bool)
    | Num(n: real)
    | Str(s: string)
    | Obj(ref: nat)

  /** JavaScript truthiness: exactly the listed falsy values are falsy. */
  predicate Truthy(v: JsValue) {
    match v
    case Undefined => false
    case Null => false
    case Bool(b) => b
    case Num(n) => n != 0.0
    case Str(s) => s != ""
    case Obj(_) => true
  }

  /** The falsy values are exactly undefined, null, false, 0 and the empty
      string; every object, however empty, is truthy. */
  lemma FalsyValues(v: JsValue)
    ensures !Truthy(v) <==> v == Undefined || v == Null || v == Bool(false) || v == Num(0.0) || v == Str("")
  {
  }

  /** Math.pow for a natural exponent. */
  function Pow(base: real, exp: nat): (r: real)
    ensures base > 0.0 ==> r > 0.0
    ensures base >= 1.0 ==> r >= 1.0
  {
    if exp == 0 then 1.0 else base * Pow(base, exp - 1)
  }
}
