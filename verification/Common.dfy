/** Small shared vocabulary: optional values, replies of fallible calls, rounding and bounds. */
module Common {

  datatype Option<+T> = None | Some(value: T)

  /** What a call into the outside world may do: return, raise an exception that the
      caller can catch, or never return because the process died. */
  datatype Reply<+T> = Returned(value: T) | Raised | Crashed {
    predicate IsFailure() {
      !Returned?
    }

    function PropagateFailure<U>(): Reply<U>
      requires IsFailure()
    {
      if Raised? then Raised else Crashed
    }

    function Extract(): T
      requires !IsFailure()
    {
      value
    }
  }

  function Ceil(x: real): int {
    -((-x).Floor)
  }

  function Min(a: int, b: int): int {
    if a <= b then a else b
  }

  function Max(a: int, b: int): int {
    if a >= b then a else b
  }
}
