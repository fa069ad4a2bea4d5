/** Assertions on the arguments of a lambda that was asserted to be called
    exactly once.
 */
module CalledOnceParametersAssertions {
  import opened AssertionFailures
  import ParametersAssertions

  /** Wraps the parameters handle over the log. Outside this helper such a
      handle is only obtained from `isCalledOnce`, so its log holds exactly
      one call (`OverOneCall`); the operations below are still total and say
      what they do on any other log. */
  datatype Handle<V> = Handle(assertions: ParametersAssertions.Handle<V>)

  /** The invariant of handles handed out by `isCalledOnce`. */
  predicate OverOneCall<V>(h: Handle<V>) {
    |h.assertions.parametersSequence| == 1
  }

  /** `with(m1, ..., mk)`: the matchers form the single expected matcher list.
      On a one-call log it succeeds exactly when that call has arity `k` and
      every argument is accepted, and otherwise reports the call's arity
      mismatch or its first rejected argument; on any other log it reports a
      count mismatch against one expected call. */
  function With<V>(h: Handle<V>, matchers: seq<Matcher<V>>): (r: Outcome<V>)
    ensures |h.assertions.parametersSequence| == 1 ==>
              (r.Pass? <==> InvocationMatches(h.assertions.parametersSequence[0], matchers))
    ensures |h.assertions.parametersSequence| == 1 && r.Fail? ==>
              && (r.failure.ArityMismatch? || r.failure.ValueMismatch?)
              && r.failure.invocation == 0
              && IsFirstFailure(h.assertions.parametersSequence, [matchers], r.failure)
    ensures |h.assertions.parametersSequence| != 1 ==>
              r == Fail(CountMismatch(1, |h.assertions.parametersSequence|))
  {
    ParametersAssertions.WithSequence(h.assertions, [matchers])
  }

  /** `withNoParameter`: on a one-call log, succeeds exactly when that call
      carried no argument. */
  function WithNoParameter<V>(h: Handle<V>): (r: Outcome<V>)
    ensures |h.assertions.parametersSequence| == 1 ==>
              (r.Pass? <==> |h.assertions.parametersSequence[0]| == 0)
    ensures r.Fail? ==> r.failure == UnexpectedParameters
  {
    ParametersAssertions.WithNoParameter(h.assertions)
  }

  /** With two matchers on a one-call log of two arguments, a rejected first
      argument is reported before the second matcher is considered, and a
      rejected second one only when the first was accepted. */
  lemma TwoArgumentReport<V>(h: Handle<V>, ma: Matcher<V>, mb: Matcher<V>, a: V, b: V)
    requires h.assertions.parametersSequence == [[a, b]]
    ensures With(h, [ma, mb]) ==
              if !ma(a) then Fail(ValueMismatch(0, 0, a))
              else if !mb(b) then Fail(ValueMismatch(0, 1, b))
              else Pass
  {
    var r := With(h, [ma, mb]);
    var log := h.assertions.parametersSequence;
    if !ma(a) {
      FirstFailureIsUnique(log, [[ma, mb]], r.failure, ValueMismatch(0, 0, a));
    } else if !mb(b) {
      assert log[0][1] == b && [ma, mb][1] == mb;
      assert !InvocationMatches(log[0], [ma, mb]);
      FirstFailureIsUnique(log, [[ma, mb]], r.failure, ValueMismatch(0, 1, b));
    }
  }
}
