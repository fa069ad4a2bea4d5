/** Assertions over the arguments of every recorded call: the handle returned
    by a successful call-count assertion.
 */
module ParametersAssertions {
  import opened AssertionFailures

  /** A read-only view of the recorded call log, one argument list per call. */
  datatype Handle<V> = Handle(parametersSequence: seq<seq<V>>)

  /** Walks the arguments of invocation `inv` from position `j` on, and reports
      the first argument its matcher rejects. */
  function CheckParameters<V>(inv: nat, params: seq<V>, matchers: seq<Matcher<V>>, j: nat): (r: Outcome<V>)
    requires |params| == |matchers|
    requires j <= |params|
    ensures r.Pass? <==> forall k :: j <= k < |params| ==> matchers[k](params[k])
    ensures r.Fail? ==>
              && r.failure.ValueMismatch?
              && r.failure.invocation == inv
              && j <= r.failure.param < |params|
              && (forall k :: j <= k < r.failure.param ==> matchers[k](params[k]))
              && !matchers[r.failure.param](params[r.failure.param])
              && r.failure.value == params[r.failure.param]
    decreases |params| - j
  {
    if j == |params| then Pass
    else if !matchers[j](params[j]) then Fail(ValueMismatch(inv, j, params[j]))
    else CheckParameters(inv, params, matchers, j + 1)
  }

  /** Walks the calls from `i` on: for each call its arity first, then its
      arguments; stops at the first failing check. */
  function CheckInvocations<V>(log: seq<seq<V>>, expected: seq<seq<Matcher<V>>>, i: nat): (r: Outcome<V>)
    requires |log| == |expected|
    requires i <= |log|
    ensures r.Pass? <==> forall k :: i <= k < |log| ==> InvocationMatches(log[k], expected[k])
    ensures r.Fail? ==> FirstFailureFrom(log, expected, i, r.failure)
    decreases |log| - i
  {
    if i == |log| then Pass
    else if |log[i]| != |expected[i]| then Fail(ArityMismatch(i, |expected[i]|, |log[i]|))
    else match CheckParameters(i, log[i], expected[i], 0)
      case Fail(f) => Fail(f)
      case Pass => CheckInvocations(log, expected, i + 1)
  }

  /** `withSequence`: the log must hold exactly one call per expected matcher
      list, each call with the expected arity and every argument accepted.
      Succeeds exactly when the log matches; otherwise reports the first
      failing check, the count check coming before every other. */
  function WithSequence<V>(h: Handle<V>, matchersSequence: seq<seq<Matcher<V>>>): (r: Outcome<V>)
    ensures r.Pass? <==> SequenceMatches(h.parametersSequence, matchersSequence)
    ensures r.Fail? ==> IsFirstFailure(h.parametersSequence, matchersSequence, r.failure)
  {
    var log := h.parametersSequence;
    if |log| != |matchersSequence| then Fail(CountMismatch(|matchersSequence|, |log|))
    else CheckInvocations(log, matchersSequence, 0)
  }

  /** True when some recorded call carried at least one argument. */
  function AnyHasParameters<V>(log: seq<seq<V>>): (b: bool)
    ensures b <==> exists i :: 0 <= i < |log| && |log[i]| > 0
  {
    if |log| == 0 then false
    else if |log[0]| > 0 then true
    else
      var rest := AnyHasParameters(log[1..]);
      assert rest ==> exists i :: 0 <= i < |log| && |log[i]| > 0 by {
        if rest {
          var i :| 0 <= i < |log[1..]| && |log[1..][i]| > 0;
          assert |log[i + 1]| > 0;
        }
      }
      rest
  }

  /** `withNoParameter`: succeeds exactly when no recorded call carried an
      argument, vacuously so on an empty log. */
  function WithNoParameter<V>(h: Handle<V>): (r: Outcome<V>)
    ensures r.Pass? <==> forall i :: 0 <= i < |h.parametersSequence| ==> |h.parametersSequence[i]| == 0
    ensures r.Fail? ==> r.failure == UnexpectedParameters
  {
    if AnyHasParameters(h.parametersSequence) then Fail(UnexpectedParameters) else Pass
  }

  /** When the counts differ no arity check and no matcher is consulted: the
      outcome is the same count mismatch whatever the matchers are. */
  lemma CountMismatchIgnoresMatchers<V>(h: Handle<V>, ms1: seq<seq<Matcher<V>>>, ms2: seq<seq<Matcher<V>>>)
    requires |ms1| == |ms2| != |h.parametersSequence|
    ensures WithSequence(h, ms1) == WithSequence(h, ms2) == Fail(CountMismatch(|ms1|, |h.parametersSequence|))
  {
  }

  /** A call's arity is checked before any of its matchers: when every earlier
      call matched and call `i` has the wrong arity, the report is that arity
      mismatch, whatever matchers call `i` and later calls carry. */
  lemma ArityCheckedBeforeValues<V>(h: Handle<V>, matchersSequence: seq<seq<Matcher<V>>>, i: nat)
    requires |h.parametersSequence| == |matchersSequence|
    requires i < |matchersSequence|
    requires forall k :: 0 <= k < i ==> InvocationMatches(h.parametersSequence[k], matchersSequence[k])
    requires |h.parametersSequence[i]| != |matchersSequence[i]|
    ensures WithSequence(h, matchersSequence)
            == Fail(ArityMismatch(i, |matchersSequence[i]|, |h.parametersSequence[i]|))
  {
  }
}
