/** Failure-compatible result types shared by every other module. */
module Wrappers {

  /** `std::optional`. */
  datatype Option<+T> = None | Some(value: T)

  /**
   * What a conversion of a JSON value does in C++: it yields a value, it throws
   * (every caller turns that into a rejected message), or its behaviour is
   * undefined, which happens only when a floating-point number is cast to an
   * integer type that cannot represent its truncation.
   */
  datatype Parsed<+T> = Ok(value: T) | Rejected | Undefined {

    predicate IsFailure() {
      !Ok?
    }

    function PropagateFailure<U>(): Parsed<U>
      requires IsFailure()
    {
      if Rejected? then Rejected else Undefined
    }

    function Extract(): T
      requires Ok?
    {
      value
    }
  }
}

/** Powers of two, for shifts and doubled delays. */
module Powers {

  function Pow2(n: nat): (p: nat)
    ensures p > 0
  {
    if n == 0 then 1 else 2 * Pow2(n - 1)
  }
}
