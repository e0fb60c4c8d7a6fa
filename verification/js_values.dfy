/**
 * The handful of JavaScript value distinctions the connect helpers branch on:
 * truthiness, `typeof`, and the two properties a mapping function is inspected
 * for (`dependsOnOwnProps` and `length`).
 */
module JsValues {

  /** A function value: its identity, its `dependsOnOwnProps` property and its
      declared positional arity (`Function.length`). */
  datatype FnInfo = FnInfo(id: nat, dependsOnOwnProps: JsValue, length: nat)

  /** Numbers are integers here; `NaN` is kept because it is falsy. */
  datatype JsValue =
    | Undefined
    | Null
    | Bool(b: bool)
    | Num(n: int)
    | NaN
    | Str(s: string)
    | Func(f: FnInfo)
    | Obj(ref: nat)

  /** How a call into user code ends: with a value, or by throwing one. */
  datatype Completion<+T> = Returned(value: T) | Threw(error: JsValue)

  /** JavaScript's `Boolean(v)`. */
  predicate Truthy(v: JsValue) {
    match v
    case Undefined => false
    case Null => false
    case Bool(b) => b
    case Num(n) => n != 0
    case NaN => false
    case Str(s) => s != ""
    case Func(_) => true
    case Obj(_) => true
  }

  /** JavaScript's `typeof v`; note that `typeof null` is "object". */
  function TypeOf(v: JsValue): string {
    match v
    case Undefined => "undefined"
    case Null => "object"
    case Bool(_) => "boolean"
    case Num(_) => "number"
    case NaN => "number"
    case Str(_) => "string"
    case Func(_) => "function"
    case Obj(_) => "object"
  }

  /** `v !== null && v !== undefined`. */
  predicate IsPresent(v: JsValue) {
    !v.Undefined? && !v.Null?
  }

  /** The only values `typeof` reports as "function" are functions, and the
      only falsy value it reports as "object" is `null`. */
  lemma TypeOfClassifies(v: JsValue)
    ensures TypeOf(v) == "function" <==> v.Func?
    ensures TypeOf(v) == "object" <==> (v.Null? || v.Obj?)
    ensures TypeOf(v) == "object" && !Truthy(v) <==> v.Null?
    ensures v.Func? ==> Truthy(v)
  {
  }

  /** JavaScript's `a === b`: identity for functions and objects, value for
      primitives, and `NaN` is equal to nothing. */
  predicate StrictEquals(a: JsValue, b: JsValue) {
    !a.NaN? && a == b
  }

  lemma StrictEqualsIsPartialIdentity(a: JsValue, b: JsValue)
    ensures StrictEquals(a, b) ==> a == b && StrictEquals(b, a)
    ensures !StrictEquals(NaN, a)
    ensures !a.NaN? ==> StrictEquals(a, a)
  {
  }
}
