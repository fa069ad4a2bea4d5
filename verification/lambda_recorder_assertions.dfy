/** Call-count assertions over a lambda recorder's log: the entry point of
    the assertion helper.
 */
module LambdaRecorderAssertions {
  import opened AssertionFailures
  import ParametersAssertions
  import CalledOnceParametersAssertions

  /** The recorder's log as the assertions see it: one argument list per
      call, in call order. The assertions only read it. */
  datatype Handle<V> = Handle(parametersSequence: seq<seq<V>>)

  /** `isCalledExactly(times)`: succeeds exactly when the log holds `times`
      calls, handing back a parameters handle over the same, unchanged log;
      otherwise reports both counts. A negative `times` never succeeds. */
  function IsCalledExactly<V>(h: Handle<V>, times: int): (r: Result<ParametersAssertions.Handle<V>, V>)
    ensures r.Success? <==> |h.parametersSequence| == times
    ensures r.Success? ==> r.value.parametersSequence == h.parametersSequence
    ensures r.Failure? ==> r.failure == CountMismatch(times, |h.parametersSequence|)
    ensures times < 0 ==> r.Failure?
  {
    if |h.parametersSequence| != times then Failure(CountMismatch(times, |h.parametersSequence|))
    else Success(ParametersAssertions.Handle(h.parametersSequence))
  }

  /** `isCalledOnce()`: succeeds exactly when the log holds one call, handing
      back a called-once handle over the same log. */
  function IsCalledOnce<V>(h: Handle<V>): (r: Result<CalledOnceParametersAssertions.Handle<V>, V>)
    ensures r.Success? <==> |h.parametersSequence| == 1
    ensures r.Success? ==> r.value.assertions.parametersSequence == h.parametersSequence
    ensures r.Success? ==> CalledOnceParametersAssertions.OverOneCall(r.value)
    ensures r.Failure? ==> r.failure == CountMismatch(1, |h.parametersSequence|)
  {
    match IsCalledExactly(h, 1)
    case Success(assertions) => Success(CalledOnceParametersAssertions.Handle(assertions))
    case Failure(f) => Failure(f)
  }

  /** `isNeverCalled()`: succeeds exactly when the log is empty. */
  function IsNeverCalled<V>(h: Handle<V>): (r: Outcome<V>)
    ensures r.Pass? <==> |h.parametersSequence| == 0
    ensures r.Fail? ==> r.failure == CountMismatch(0, |h.parametersSequence|)
  {
    match IsCalledExactly(h, 0)
    case Success(_) => Pass
    case Failure(f) => Fail(f)
  }

  /** `isCalledOnce().with(m1, ..., mk)` on a one-call log gives the same
      outcome as `isCalledExactly(1).withSequence([m1, ..., mk])`, and
      `isCalledOnce()` fails exactly where `isCalledExactly(1)` fails. */
  lemma CalledOnceWithIsSequenceOfOne<V>(h: Handle<V>, matchers: seq<Matcher<V>>)
    ensures IsCalledOnce(h).Success? <==> IsCalledExactly(h, 1).Success?
    ensures IsCalledOnce(h).Success? ==>
              CalledOnceParametersAssertions.With(IsCalledOnce(h).value, matchers)
              == ParametersAssertions.WithSequence(IsCalledExactly(h, 1).value, [matchers])
  {
  }

  /** Chaining keeps the log: a count assertion followed by a sequence
      assertion on the returned handle judges the recorder's own log, so the
      chain succeeds exactly when the count is right and the log matches. */
  lemma ChainedSequenceJudgesRecordedLog<V>(h: Handle<V>, times: int, matchersSequence: seq<seq<Matcher<V>>>)
    ensures (IsCalledExactly(h, times).Success?
             && ParametersAssertions.WithSequence(IsCalledExactly(h, times).value, matchersSequence).Pass?)
            <==> (|h.parametersSequence| == times && SequenceMatches(h.parametersSequence, matchersSequence))
  {
  }

  /** A log of `k` calls fails `isCalledExactly(n)` for every `n` other than
      `k`, and the report names both numbers. */
  lemma WrongCountReportsBoth<V>(h: Handle<V>, n: int)
    requires n != |h.parametersSequence|
    ensures IsCalledExactly(h, n) == Failure(CountMismatch(n, |h.parametersSequence|))
  {
  }
}
