/**
  Numbers as the ledger computes with them. JavaScript keeps amounts in
  binary floating point; this model keeps them exact, in minor currency units
  (cents), and keeps the one value the code's coercions produce besides a
  number: NaN, which `Number(x)` yields for an amount that is not numeric.
*/
module Numbers {

  datatype JsNumber = Finite(minor: int) | NaN

  /** `a + b`: NaN absorbs everything it is added to. */
  function Plus(a: JsNumber, b: JsNumber): JsNumber {
    if a.Finite? && b.Finite? then Finite(a.minor + b.minor) else NaN
  }

  /** `a - b`. */
  function Minus(a: JsNumber, b: JsNumber): JsNumber {
    if a.Finite? && b.Finite? then Finite(a.minor - b.minor) else NaN
  }

  /** JavaScript truthiness of a number: 0 and NaN are falsy. */
  predicate Truthy(a: JsNumber) {
    a.Finite? && a.minor != 0
  }

  /** `a || 0`: a falsy number (0 or NaN) becomes 0. */
  function OrZero(a: JsNumber): (r: JsNumber)
    ensures r.Finite?
    ensures a.Finite? ==> r == a
  {
    if Truthy(a) then a else Finite(0)
  }

  /**
    Whether the comparator value `a - b` is positive. ECMA-262's SortCompare
    reads a NaN comparator result as +0, so a NaN on either side means "not
    greater".
  */
  predicate Greater(a: JsNumber, b: JsNumber) {
    a.Finite? && b.Finite? && a.minor > b.minor
  }
}
