/**
 * The JavaScript values the frontends' forms and mappers pass around, with
 * the conversions they apply to them: truthiness and `||`, `Number(v)` and
 * `String(v)`.
 */
module Js {
  import opened Wrappers
  import opened Text

  /** A number, NaN, a string or `undefined`. */
  datatype Value = Num(x: real) | NaN | Str(s: string) | Undefined

  /** `0`, NaN, `""` and `undefined` are falsy; every other value is truthy. */
  predicate Truthy(v: Value) {
    match v
    case Num(x) => x != 0.0
    case NaN => false
    case Str(s) => s != ""
    case Undefined => false
  }

  /** `a || b`: `a` when it is truthy, otherwise `b`. */
  function Or(a: Value, b: Value): Value {
    if Truthy(a) then a else b
  }

  predicate IsInteger(x: real) {
    x.Floor as real == x
  }

  /** `Number(v)`: numbers stay, strings are read as numbers, `undefined` is NaN. */
  function ToNumber(v: Value): (r: Value)
    ensures r.Num? || r.NaN?
    ensures v.Num? || v.NaN? ==> r == v
  {
    match v
    case Str(s) => (match JsNumber(s) case Some(i) => Num(i as real) case None => NaN)
    case Undefined => NaN
    case _ => v
  }

  /** Numbers with a text rendering in this model: every value but a non-integral number. */
  predicate Renderable(v: Value) {
    v.Num? ==> IsInteger(v.x)
  }

  /** `String(v)`. */
  function ToText(v: Value): (s: string)
    requires Renderable(v)
    ensures v.Str? ==> s == v.s
  {
    match v
    case Num(x) => IntText(x.Floor)
    case NaN => "NaN"
    case Str(s) => s
    case Undefined => "undefined"
  }

  /** An integral number survives `Number(String(v))`. */
  lemma NumberOfText(i: int)
    ensures ToNumber(Str(ToText(Num(i as real)))) == Num(i as real)
  {
    assert (i as real).Floor == i;
    JsNumberText(i);
  }

  /** `String` tells integers apart. */
  lemma TextInjective(i: int, j: int)
    requires ToText(Num(i as real)) == ToText(Num(j as real))
    ensures i == j
  {
    assert (i as real).Floor == i && (j as real).Floor == j;
    IntTextInjective(i, j);
  }
}
