/** The decomposition driver: a decomposer holds the size and indicator
    tables, one column per state, and compares every state with the first. */
module Decomposition {
  import opened Results
  import opened Logarithm
  import opened Lmdi
  import LmdiProperties

  /** The decomposition methods the constructor accepts. */
  const AcceptedMethods: seq<string> := ["LMDI"]

  /** The stored input: the state labels in column order and, for each state,
      the column of sector sizes and the column of indicator values. The
      first state is the base of every comparison. */
  datatype Decomposer = Decomposer(states: seq<string>, sizes: seq<seq<real>>, indicators: seq<seq<real>>)

  /** One result row: a state label and its effects against the base. */
  datatype Row = Row(state: string, effects: Effects)

  /** Construction keeps the tables as given and admits only the LMDI method,
      which is also the default; any other method name is rejected, naming
      the method. */
  function New(states: seq<string>, sizes: seq<seq<real>>, indicators: seq<seq<real>>,
               methodName: string := "LMDI"): (r: Result<Decomposer>)
    ensures r.Success? <==> methodName == "LMDI"
    ensures r.Success? ==>
      r.value.states == states && r.value.sizes == sizes && r.value.indicators == indicators
    ensures r.Failure? ==> r.error == MethodNotAllowed(methodName)
  {
    if methodName in AcceptedMethods then Success(Decomposer(states, sizes, indicators))
    else Failure(MethodNotAllowed(methodName))
  }

  /** Omitting the method name yields an LMDI decomposer over the tables. */
  lemma DefaultConstruction(states: seq<string>, sizes: seq<seq<real>>, indicators: seq<seq<real>>)
    ensures New(states, sizes, indicators) == Success(Decomposer(states, sizes, indicators))
  {
  }

  /** The tables have a column per state and every state, compared with the
      base, lies in the engine's domain. */
  ghost predicate Computable(d: Decomposer) {
    && |d.sizes| == |d.states| && |d.indicators| == |d.states|
    && forall s :: 0 <= s < |d.states| ==>
         Domain(d.sizes[s], d.sizes[0], d.indicators[s], d.indicators[0])
  }

  /** The engine applied to state s against state 0. */
  function StateEffects(m: LogModel, d: Decomposer, s: nat): Result<Effects>
    requires Lawful(m) && Computable(d) && s < |d.states|
  {
    Indices(m, d.sizes[s], d.sizes[0], d.indicators[s], d.indicators[0])
  }

  /** Pairs each state label with its engine result, in order, stopping at
      the first failure. */
  method CollectRows(states: seq<string>, results: seq<Result<Effects>>) returns (r: Result<seq<Row>>)
    requires |results| == |states|
    ensures r.Success? <==> forall s :: 0 <= s < |states| ==> results[s].Success?
    ensures r.Success? ==> |r.value| == |states|
    ensures r.Success? ==> forall s :: 0 <= s < |states| ==> r.value[s] == Row(states[s], results[s].value)
    ensures r.Failure? ==> exists s :: 0 <= s < |states| && results[s] == Failure(r.error) &&
                                       forall t :: 0 <= t < s ==> results[t].Success?
  {
    var rows: seq<Row> := [];
    var s := 0;
    while s < |states|
      invariant s <= |states|
      invariant |rows| == s
      invariant forall t :: 0 <= t < s ==> results[t].Success? && rows[t] == Row(states[t], results[t].value)
    {
      if results[s].Failure? {
        return Failure(results[s].error);
      }
      rows := rows + [Row(states[s], results[s].value)];
      s := s + 1;
    }
    r := Success(rows);
  }

  /** One row per state, in column order, each the engine's effects for that
      state against the base; the first failing state decides the error. */
  method GetResults(m: LogModel, d: Decomposer) returns (r: Result<seq<Row>>)
    requires Lawful(m)
    requires Computable(d)
    ensures r.Success? <==> forall s :: 0 <= s < |d.states| ==> StateEffects(m, d, s).Success?
    ensures r.Success? ==> |r.value| == |d.states|
    ensures r.Success? ==> forall s :: 0 <= s < |d.states| ==>
      r.value[s] == Row(d.states[s], StateEffects(m, d, s).value)
    ensures r.Failure? ==> exists s :: FirstFailure(m, d, s, r.error)
    ensures r.Failure? ==> r.error == DomainError
  {
    var results := CompareStates(m, d);
    r := CollectRows(d.states, results);
    if r.Failure? {
      FirstFailureOf(m, d, results, r.error);
    }
  }

  /** The engine applied to every state against the base, in column order. */
  method CompareStates(m: LogModel, d: Decomposer) returns (results: seq<Result<Effects>>)
    requires Lawful(m)
    requires Computable(d)
    ensures |results| == |d.states|
    ensures forall s :: 0 <= s < |d.states| ==> results[s] == StateEffects(m, d, s)
  {
    results := seq(|d.states|, s requires 0 <= s < |d.states| => StateEffects(m, d, s));
  }

  /** The first failing entry of the per-state results is the first failing
      state, and its error is a domain error. */
  lemma FirstFailureOf(m: LogModel, d: Decomposer, results: seq<Result<Effects>>, error: Error)
    requires Lawful(m)
    requires Computable(d)
    requires |results| == |d.states|
    requires forall s :: 0 <= s < |d.states| ==> results[s] == StateEffects(m, d, s)
    requires exists s :: 0 <= s < |results| && results[s] == Failure(error) &&
                         forall t :: 0 <= t < s ==> results[t].Success?
    ensures exists s :: FirstFailure(m, d, s, error)
    ensures error == DomainError
  {
    var s :| 0 <= s < |results| && results[s] == Failure(error) &&
             forall t :: 0 <= t < s ==> results[t].Success?;
    assert FirstFailure(m, d, s, error);
  }

  /** State s is the first whose comparison with the base fails, with `error`. */
  ghost predicate FirstFailure(m: LogModel, d: Decomposer, s: int, error: Error)
    requires Lawful(m) && Computable(d)
  {
    && 0 <= s < |d.states|
    && StateEffects(m, d, s) == Failure(error)
    && forall t :: 0 <= t < s ==> StateEffects(m, d, t).Success?
  }

  /** The base compared with itself: unity effects, or the zero fallback when
      there are no sectors. So the driver's first row is always defined. */
  lemma BaseRow(m: LogModel, d: Decomposer)
    requires Lawful(m)
    requires Computable(d) && |d.states| > 0
    ensures StateEffects(m, d, 0) == Success(if |d.sizes[0]| == 0 then Zero else Unity)
  {
    if |d.sizes[0]| == 0 {
      assert d.sizes[0] == [] && d.indicators[0] == [];
      LmdiProperties.NoSectors(m);
    } else {
      LmdiProperties.SelfComparison(m, d.sizes[0], d.indicators[0]);
    }
  }
}
