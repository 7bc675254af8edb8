/** Optional values, results and check outcomes shared by every component. */
module Outcomes {

  datatype Option<+T> = None | Some(value: T)

  datatype Result<+T, +E> = Ok(value: T) | Err(error: E) {
    predicate IsFailure() {
      Err?
    }

    function PropagateFailure<U>(): Result<U, E>
      requires Err?
    {
      Err(error)
    }

    function Extract(): T
      requires Ok?
    {
      value
    }
  }

  /** The outcome of one check that carries no value: used as `:- Need(condition, error)`. */
  datatype Checked<+E> = Pass | Fail(error: E) {
    predicate IsFailure() {
      Fail?
    }

    function PropagateFailure<U>(): Result<U, E>
      requires Fail?
    {
      Err(error)
    }
  }

  function Need<E>(condition: bool, error: E): Checked<E> {
    if condition then Pass else Fail(error)
  }

  /** 1 when the condition holds, else 0: lets a count be stated as a sum of facts. */
  function Indicator(condition: bool): nat {
    if condition then 1 else 0
  }

  /** A set of positions of which only the last, n, can be new. */
  lemma OneMore(earlier: set<int>, all: set<int>, n: int)
    requires n !in earlier && all - {n} == earlier
    ensures |all| == |earlier| + Indicator(n in all)
  {
    assert all == earlier + if n in all then {n} else {};
  }
}
