/** Concrete call logs run through the assertion helper, with equality
    matchers over a small value type standing in for the recorded arguments.
 */
module AssertionScenarios {
  import opened AssertionFailures
  import ParametersAssertions
  import CalledOnceParametersAssertions
  import LambdaRecorderAssertions

  /** The argument kinds used below. */
  datatype Value = Str(s: string) | Num(n: int)

  const NoCalls: seq<seq<Value>> := []
  const TwoEmptyCalls: seq<seq<Value>> := [[], []]

  /** The matcher accepting exactly `expected`. */
  function Eq(expected: Value): Matcher<Value> {
    v => v == expected
  }

  /** A recorder that was never called passes `isNeverCalled` and
      `isCalledExactly(0)`, and fails `isCalledOnce` reporting 1 against 0. */
  lemma EmptyLogScenario()
    ensures LambdaRecorderAssertions.IsNeverCalled(LambdaRecorderAssertions.Handle(NoCalls)) == Pass
    ensures LambdaRecorderAssertions.IsCalledExactly(LambdaRecorderAssertions.Handle(NoCalls), 0).Success?
    ensures LambdaRecorderAssertions.IsCalledOnce(LambdaRecorderAssertions.Handle(NoCalls))
            == Failure(CountMismatch(1, 0))
  {
  }

  /** Calls `("x", 1)` then `("y", 2)`: the matching sequence passes, and a
      sequence expecting "z" in the second call reports invocation 1,
      parameter 0, actual value "y". */
  lemma TwoCallScenario()
    ensures
      var h := LambdaRecorderAssertions.Handle([[Str("x"), Num(1)], [Str("y"), Num(2)]]);
      var pa := LambdaRecorderAssertions.IsCalledExactly(h, 2);
      && pa.Success?
      && ParametersAssertions.WithSequence(pa.value, [[Eq(Str("x")), Eq(Num(1))], [Eq(Str("y")), Eq(Num(2))]])
         == Pass
      && ParametersAssertions.WithSequence(pa.value, [[Eq(Str("x")), Eq(Num(1))], [Eq(Str("z")), Eq(Num(2))]])
         == Fail(ValueMismatch(1, 0, Str("y")))
  {
  }

  /** One call with two arguments checked against three matchers is an arity
      mismatch (3 expected, 2 recorded), whatever the matchers accept. */
  lemma ArityScenario(m1: Matcher<Value>, m2: Matcher<Value>, m3: Matcher<Value>)
    ensures
      var once := LambdaRecorderAssertions.IsCalledOnce(LambdaRecorderAssertions.Handle([[Str("a"), Num(7)]]));
      && once.Success?
      && CalledOnceParametersAssertions.With(once.value, [m1, m2, m3]) == Fail(ArityMismatch(0, 3, 2))
  {
  }

  /** `withNoParameter` fails on a call that carried an argument and passes
      on calls that carried none. */
  lemma NoParameterScenario()
    ensures ParametersAssertions.WithNoParameter(ParametersAssertions.Handle([[], [Num(1)]]))
            == Fail(UnexpectedParameters)
    ensures ParametersAssertions.WithNoParameter(ParametersAssertions.Handle(TwoEmptyCalls)) == Pass
  {
  }
}
