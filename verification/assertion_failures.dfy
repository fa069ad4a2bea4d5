/** Vocabulary shared by the lambda-call assertions: the recorded call log,
    parameter matchers, the failure taxonomy and the declarative meaning of
    "the log matches the expectations" and "this is the first failing check".
 */
module AssertionFailures {

  /** A parameter matcher answers match / no-match for one recorded argument.
      Its implementation is not part of this model, so it is any total predicate. */
  type Matcher<!V> = V -> bool

  /** Why an assertion failed. Counts are carried as the message reports them:
      the `expected` one is what the test asked for, the `actual` one what was
      recorded; a value mismatch carries the rejected argument. */
  datatype AssertionFailure<V> =
    | CountMismatch(expectedCalls: int, actualCalls: nat)
    | ArityMismatch(invocation: nat, expectedParams: nat, actualParams: nat)
    | ValueMismatch(invocation: nat, param: nat, value: V)
    | UnexpectedParameters

  /** The result of an assertion that returns nothing on success. */
  datatype Outcome<V> = Pass | Fail(failure: AssertionFailure<V>)

  /** The result of an assertion that returns a further handle on success. */
  datatype Result<T, V> = Success(value: T) | Failure(failure: AssertionFailure<V>)

  /** One recorded invocation satisfies one matcher list: same arity and every
      argument accepted by the matcher at its position. */
  ghost predicate InvocationMatches<V>(params: seq<V>, matchers: seq<Matcher<V>>) {
    && |params| == |matchers|
    && forall j :: 0 <= j < |params| ==> matchers[j](params[j])
  }

  /** The whole log satisfies the expected sequence: one matcher list per call. */
  ghost predicate SequenceMatches<V>(log: seq<seq<V>>, expected: seq<seq<Matcher<V>>>) {
    && |log| == |expected|
    && forall i :: 0 <= i < |log| ==> InvocationMatches(log[i], expected[i])
  }

  /** With equal counts, `f` is the earliest failing check at or after call
      `from`: calls are walked in order, a call's arity is checked before its
      matchers, and its matchers left to right. */
  ghost predicate FirstFailureFrom<V>(log: seq<seq<V>>, expected: seq<seq<Matcher<V>>>,
                                      from: nat, f: AssertionFailure<V>)
  {
    && |log| == |expected|
    && match f
       case ArityMismatch(i, e, a) =>
         && from <= i < |log|
         && (forall k :: from <= k < i ==> InvocationMatches(log[k], expected[k]))
         && |log[i]| != |expected[i]|
         && e == |expected[i]| && a == |log[i]|
       case ValueMismatch(i, j, v) =>
         && from <= i < |log|
         && (forall k :: from <= k < i ==> InvocationMatches(log[k], expected[k]))
         && |log[i]| == |expected[i]|
         && j < |log[i]|
         && (forall k :: 0 <= k < j ==> expected[i][k](log[i][k]))
         && !expected[i][j](log[i][j])
         && v == log[i][j]
       case _ => false
  }

  /** `f` is the failure a fail-fast check of `log` against `expected` must
      report: a count mismatch when the counts differ, and otherwise the first
      arity or value mismatch in call-major, parameter-minor order. */
  ghost predicate IsFirstFailure<V>(log: seq<seq<V>>, expected: seq<seq<Matcher<V>>>,
                                    f: AssertionFailure<V>)
  {
    if |log| != |expected| then f == CountMismatch(|expected|, |log|)
    else FirstFailureFrom(log, expected, 0, f)
  }

  /** A first failure is one, not several: any two failures satisfying the
      description are the same, so `IsFirstFailure` pins the report down. */
  lemma FirstFailureIsUnique<V>(log: seq<seq<V>>, expected: seq<seq<Matcher<V>>>,
                                f: AssertionFailure<V>, g: AssertionFailure<V>)
    requires IsFirstFailure(log, expected, f)
    requires IsFirstFailure(log, expected, g)
    ensures f == g
  {
  }

  /** A matching log has no first failure, and a log with a first failure does
      not match: success and failure are mutually exclusive descriptions. */
  lemma MatchingLogHasNoFailure<V>(log: seq<seq<V>>, expected: seq<seq<Matcher<V>>>,
                                   f: AssertionFailure<V>)
    requires SequenceMatches(log, expected)
    ensures !IsFirstFailure(log, expected, f)
  {
  }
}
