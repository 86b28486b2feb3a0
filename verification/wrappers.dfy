/** Failure-compatible wrappers shared by every module of the model. */
module Wrappers {

  /** Python's "a value or None", also used for absent optional arguments. */
  datatype Option<+T> = None | Some(value: T)

  /** The outcome of an operation that may raise: `Ok` carries the value,
      `Err` the exception that escaped. */
  datatype Result<+T, +E> = Ok(value: T) | Err(error: E) {
    predicate IsFailure() {
      Err?
    }

    function PropagateFailure<U>(): Result<U, E>
      requires Err?
    {
      Err(error)
    }

    function Extract(): T
      requires Ok?
    {
      value
    }
  }

  /** A loop that stops at the first exception: every value when all the
      outcomes succeed, otherwise the first exception. */
  function Collect<T, E>(rs: seq<Result<T, E>>): (r: Result<seq<T>, E>)
    ensures r.Ok? ==> |r.value| == |rs| && forall i :: 0 <= i < |rs| ==> rs[i] == Ok(r.value[i])
    ensures r.Err? <==> exists i :: 0 <= i < |rs| && rs[i].Err?
    ensures r.Err? ==> exists i :: 0 <= i < |rs| && rs[i] == Err(r.error) && forall j :: 0 <= j < i ==> rs[j].Ok?
  {
    if |rs| == 0 then Ok([])
    else
      assert forall i :: 1 <= i < |rs| ==> rs[i] == rs[1..][i - 1];
      match rs[0]
      case Err(e) => Err(e)
      case Ok(v) =>
        match Collect(rs[1..])
        case Err(e) =>
          assert exists i :: 0 <= i < |rs| && rs[i] == Err(e) && forall j :: 0 <= j < i ==> rs[j].Ok? by {
            var k :| 0 <= k < |rs| - 1 && rs[1..][k] == Err(e) && forall j :: 0 <= j < k ==> rs[1..][j].Ok?;
            assert rs[k + 1] == Err(e);
            assert forall j :: 1 <= j < k + 1 ==> rs[j].Ok? by {
              forall j | 1 <= j < k + 1 ensures rs[j].Ok? {
                assert rs[j] == rs[1..][j - 1];
              }
            }
          }
          Err(e)
        case Ok(rest) => Ok([v] + rest)
  }
}
