/** The dynamically typed JavaScript values the dispatcher inspects, with
    just enough structure to state `typeof` tests and truthiness exactly. */
module Js {
  import opened Wrappers

  /** A JavaScript value as far as this component looks at it.
      `Other` stands for everything that is neither a string, a number nor
      `undefined` (null, booleans, objects, functions); its flag records
      whether that value is truthy (null and false are not). Numbers are
      modelled by their integer value; NaN and fractions are not modelled. */
  datatype JsValue = Str(s: string) | Num(n: int) | Undef | Other(truthy: bool)

  /** JavaScript truthiness: the empty string, 0, undefined, null and false
      are falsy, everything else is truthy. */
  predicate Truthy(v: JsValue) {
    match v
    case Str(s) => s != ""
    case Num(n) => n != 0
    case Undef => false
    case Other(b) => b
  }

  /** `typeof v === 'string'` */
  predicate IsString(v: JsValue) {
    v.Str?
  }

  /** `typeof v === 'number'` */
  predicate IsNumber(v: JsValue) {
    v.Num?
  }

  /** `v || fallback` for a value declared as `number` that may be undefined:
      0 and undefined both select the fallback. */
  function NumberOr(v: Option<int>, fallback: int): (r: int)
    ensures r == fallback <==> v.None? || v.value == 0 || v.value == fallback
    ensures r != fallback ==> v == Some(r)
  {
    match v
    case Some(n) => if n != 0 then n else fallback
    case None => fallback
  }

  /** `v || fallback` for a value declared as `string` that may be undefined:
      the empty string and undefined both select the fallback. */
  function StringOr(v: Option<string>, fallback: string): (r: string)
    ensures r == fallback <==> v.None? || v.value == "" || v.value == fallback
    ensures r != fallback ==> v == Some(r)
  {
    match v
    case Some(s) => if s != "" then s else fallback
    case None => fallback
  }
}
