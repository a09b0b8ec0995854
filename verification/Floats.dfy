/** Floating-point numbers without rounding. */
module Floats {

  /** A quotient: dividing by zero gives an infinity, whose sign nothing looks at, or not a number. */
  datatype Extended = Finite(value: real) | Infinite | NotANumber {
    function Plus(r: real): Extended {
      if Finite? then Finite(value + r) else this
    }

    function Times(r: real): Extended {
      if Finite? then Finite(value * r)
      else if Infinite? && r == 0.0 then NotANumber
      else this
    }
  }

  function Divide(a: real, b: real): Extended {
    if b != 0.0 then Finite(a / b) else if a != 0.0 then Infinite else NotANumber
  }
}
