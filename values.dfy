/** JavaScript values and the error results shared by the route handlers. */
module Values {

  datatype Option<T> = None | Some(value: T)

  /** A JavaScript number produced by a division: a finite value or one of the
      IEEE special values. Rounding is not modelled; finite values are reals. */
  datatype Num = Finite(value: real) | PosInfinity | NegInfinity | NaN

  /** `a / n` in JavaScript, for a finite numerator and a length as divisor:
      a non-zero divisor gives the quotient, zero gives an infinity or NaN. */
  function Divide(a: real, n: nat): (q: Num)
    ensures n > 0 ==> q.Finite? && q.value * (n as real) == a
    ensures n == 0 ==> (q == NaN <==> a == 0.0)
    ensures n == 0 ==> (q == PosInfinity <==> a > 0.0) && (q == NegInfinity <==> a < 0.0)
  {
    if n > 0 then Finite(a / n as real)
    else if a > 0.0 then PosInfinity
    else if a < 0.0 then NegInfinity
    else NaN
  }

  /** How a request handler fails. */
  datatype Failure =
    | HttpError(status: nat, message: string)  // an ErrorHandler passed to next()
    | TypeError                                // a property read on null or undefined

  /** What a request handler answers. */
  datatype Outcome<T> = Ok(value: T) | Fail(failure: Failure)
}
