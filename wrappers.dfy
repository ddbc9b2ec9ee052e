/** Values shared by every module of the model. */
module Wrappers {

  /** Some value, or nothing (JavaScript's `undefined`). */
  datatype Option<+T> = None | Some(value: T)

  /** What an awaited call does: it returns a value, or it throws and
      the rest of the current cycle is skipped. */
  datatype Outcome<+T> = Returned(value: T) | Threw

  function Min(a: nat, b: nat): nat
  {
    if a <= b then a else b
  }
}
