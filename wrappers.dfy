/** Optional values, results and the error kinds the calculator can raise. */
module Wrappers {

  datatype Option<+T> = None | Some(value: T)

  /** A value or the error that Python would raise instead of returning it. */
  datatype Result<+T, +E> = Ok(value: T) | Err(error: E)

  /** A check that either passes or fails with an error. */
  datatype Outcome<+E> = Pass | Fail(error: E)

  /** The exceptions the calculator raises.
      ItemNotFound: `get` found no table entry for a menu text (a ValueError).
      ZeroDivision: a division by zero (an empty group, a zero serving amount).
      MissingFoods: validation found menu items the table cannot match.
      InsufficientOptions: a choose group lists fewer options than it requires.
      EmptyOption: an option given as an empty mapping has no first value (an
        IndexError). */
  datatype Error =
    | ItemNotFound(text: string)
    | ZeroDivision
    | MissingFoods(items: seq<string>)
    | InsufficientOptions(required: nat, available: nat)
    | EmptyOption
}
