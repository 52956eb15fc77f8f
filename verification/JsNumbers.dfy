/**
 JavaScript's division, Math.max and `<` over exact reals: dividing by zero gives an infinity or NaN instead of failing.
 The sign of zero and the rounding of doubles are not modelled.
 */
module JsNumbers {
  datatype Num = Fin(value: real) | PosInf | NegInf | NaN

  function Pow10(n: nat): nat {
    if n == 0 then 1 else 10 * Pow10(n - 1)
  }

  function Div(a: real, b: real): Num {
    if b != 0.0 then Fin(a / b)
    else if a > 0.0 then PosInf
    else if a < 0.0 then NegInf
    else NaN
  }

  function Max(a: Num, b: Num): Num {
    if a.NaN? || b.NaN? then NaN
    else if a.PosInf? || b.PosInf? then PosInf
    else if a.NegInf? then b
    else if b.NegInf? then a
    else if a.value >= b.value then a else b
  }

  function Floored(a: Num): Num {
    if a.Fin? then Fin(a.value.Floor as real) else a
  }

  function Negated(a: Num): Num {
    match a
    case Fin(v) => Fin(-v)
    case PosInf => NegInf
    case NegInf => PosInf
    case NaN => NaN
  }

  function Times(x: real, a: Num): Num {
    if a.Fin? then Fin(x * a.value)
    else if x > 0.0 then a
    else if x < 0.0 then Negated(a)
    else NaN
  }

  function Plus(a: Num, b: Num): Num {
    if a.Fin? && b.Fin? then Fin(a.value + b.value)
    else if a.Fin? then b
    else if b.Fin? || a == b then a
    else NaN
  }

  predicate Less(a: Num, bound: real) {
    match a
    case Fin(v) => v < bound
    case NegInf => true
    case PosInf => false
    case NaN => false
  }
}
