/** Failure-compatible results for the decomposition: the exceptions
    `IndexDecomposition.py` raises become `Failure` values. */
module Results {

  /** The two ways a computation can be refused. */
  datatype Error =
    | DomainError                     // zero or negative data where a logarithm is needed
    | MethodNotAllowed(name: string)   // a decomposition method other than LMDI

  datatype Result<+T> = Success(value: T) | Failure(error: Error) {

    predicate IsFailure() {
      Failure?
    }

    function PropagateFailure<U>(): Result<U>
      requires Failure?
    {
      Failure(error)
    }

    function Extract(): T
      requires Success?
    {
      value
    }
  }

  /** Evaluates a sequence of element computations all-or-nothing, the way a
      list comprehension does when an element raises: the first failure wins,
      otherwise every value is kept in order. */
  function Collect<T>(rs: seq<Result<T>>): (r: Result<seq<T>>)
    ensures r.Success? <==> forall k :: 0 <= k < |rs| ==> rs[k].Success?
    ensures r.Success? ==> |r.value| == |rs|
    ensures r.Success? ==> forall k :: 0 <= k < |rs| ==> r.value[k] == rs[k].value
    ensures r.Failure? ==>
      exists k :: 0 <= k < |rs| && rs[k] == Failure(r.error)
                  && forall j :: 0 <= j < k ==> rs[j].Success?
  {
    if |rs| == 0 then Success([])
    else if rs[0].Failure? then Failure(rs[0].error)
    else
      var rest := Collect(rs[1..]);
      if rest.Failure? then
        assert rs[1..][0] == rs[1];
        Failure(rest.error)
      else Success([rs[0].value] + rest.value)
  }
}
