/** Error results shared by every component, and the C++ integer operators
    the components rely on. */
module Common {

  /** The exceptions the analysis core throws. */
  datatype Error =
    | InvalidArgument   // std::invalid_argument
    | OutOfRange        // std::out_of_range
    | Overflow          // std::overflow_error
    | Underflow         // std::underflow_error
    | Runtime           // std::runtime_error
    | Length            // std::length_error

  /** A value or the exception that replaced it. */
  datatype Result<+T> = Success(value: T) | Failure(error: Error)

  /** A check that either passes or throws. */
  datatype Outcome = Pass | Fail(error: Error)

  function Abs(x: int): nat { if x < 0 then -x else x }

  /** C++ `a / b` on int: the quotient is truncated toward zero. */
  function TruncDiv(a: int, b: int): (q: int)
    requires b != 0
    ensures Abs(a - q * b) < Abs(b)
    ensures a - q * b == 0 || (a - q * b < 0 <==> a < 0)
  {
    if (a >= 0) == (b > 0) then Abs(a) / Abs(b) else -(Abs(a) / Abs(b))
  }

  /** C++ `a % b` on int: the remainder takes the sign of the dividend. */
  function TruncMod(a: int, b: int): (r: int)
    requires b != 0
    ensures a == TruncDiv(a, b) * b + r
    ensures a >= 0 ==> 0 <= r < Abs(b)
    ensures a < 0 ==> 0 - Abs(b) < r <= 0
  {
    a - TruncDiv(a, b) * b
  }

  /** On non-negative operands the C++ operators agree with Dafny's. */
  lemma TruncAgreesOnNonNegative(a: int, b: int)
    requires a >= 0 && b > 0
    ensures TruncDiv(a, b) == a / b && TruncMod(a, b) == a % b
  {
  }
}
