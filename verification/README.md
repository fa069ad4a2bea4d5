# Lambda-call assertions and emoji-picker search, in Dafny

This project models two small pure pieces of an Android Matrix chat client
(Element X) and proves properties of them.

1. **The lambda-recorder assertion helper** used by the client's unit tests.
   A recorder keeps one argument list per call to a stand-in lambda. The
   helper checks that log against expectations:
   - an exact call count (`isCalledExactly`, `isCalledOnce`, `isNeverCalled`);
   - per-call, per-position parameter matchers (`withSequence`, `with`);
   - "no call carried arguments" (`withNoParameter`).

   The checks are fail-fast. The count check comes first. Then calls are
   walked in order, and for each call its arity is checked before its
   matchers, left to right. The model returns the first failure as a value
   (`CountMismatch`, `ArityMismatch`, `ValueMismatch`, `UnexpectedParameters`)
   instead of throwing an `AssertionError`.
2. **The emoji picker's search presenter**, which has three parts:
   - the saved search state `(searchQuery, isSearchActive)`;
   - the event-sink reducer for `OnSearchActiveChanged`, `UpdateSearchQuery` and `Reset`;
   - the search effect, which publishes `Results(allEmojis.filter { ... })`
     whenever the query changes.

   An emoji is kept when its label, one of its tags or one of its
   shortcodes contains the query, ignoring case.

Modules follow the Kotlin classes:
- `AssertionFailures` holds the failure taxonomy and the declarative meaning
  of "matches" and "first failure".
- `ParametersAssertions`, `CalledOnceParametersAssertions` and
  `LambdaRecorderAssertions` model one Kotlin class each.
- `AssertionScenarios` holds concrete logs run through the helper.
- `EmojiSearch` holds the ignore-case containment and the filter.
- `EmojiPickerPresenter` holds the reducer and the search effect.

The recorded log is a `seq<seq<V>>`. A `ParameterMatcher` is any total
predicate `V -> bool`.

Ignore-case character equality follows the Kotlin standard library's three
steps: equal characters, or equal upper-case forms, or equal lower-cased
upper-case forms. Only ASCII letters have case mappings here.
`contains(query, ignoreCase = true)` succeeds when the query fits at some
offset from 0 to the string's length and agrees with it there.

The presenter never produces `NoResultsFound`. A query that matches
nothing yields `Results` of an empty list (`NeverNoResultsFound`).

## Model

| member | source | states |
|---|---|---|
| AssertionFailures.FirstFailureIsUnique | tests/testutils/src/main/kotlin/io/element/android/tests/testutils/lambda/Assertions.kt:57-73 | Any two failures that both fit the "first failing check" description are equal, so a fail-fast check has exactly one correct report. |
| AssertionFailures.MatchingLogHasNoFailure | tests/testutils/src/main/kotlin/io/element/android/tests/testutils/lambda/Assertions.kt:57-73 | A log that satisfies its matcher lists has no first failure: success and failure exclude each other. |
| ParametersAssertions.CheckParameters | tests/testutils/src/main/kotlin/io/element/android/tests/testutils/lambda/Assertions.kt:65-71 | Walking one call's arguments left to right passes iff every remaining argument is accepted. Otherwise it reports the leftmost rejected position with its actual value, all earlier positions having been accepted. |
| ParametersAssertions.CheckInvocations | tests/testutils/src/main/kotlin/io/element/android/tests/testutils/lambda/Assertions.kt:61-72 | Walking the calls in order passes iff every remaining call has the expected arity and accepted arguments. Otherwise it reports the first failing check, with arity checked before values within a call. |
| ParametersAssertions.WithSequence | tests/testutils/src/main/kotlin/io/element/android/tests/testutils/lambda/Assertions.kt:57-73 | Succeeds iff the counts are equal, every call's arity equals its matcher list's length, and every argument is accepted. On failure it reports exactly the first failing check: count, then per call arity, then values left to right. |
| ParametersAssertions.AnyHasParameters | tests/testutils/src/main/kotlin/io/element/android/tests/testutils/lambda/Assertions.kt:76 | True iff some recorded call has a non-empty argument list. |
| ParametersAssertions.WithNoParameter | tests/testutils/src/main/kotlin/io/element/android/tests/testutils/lambda/Assertions.kt:75-79 | Succeeds iff every recorded call has an empty argument list, vacuously so on an empty log; otherwise reports unexpected parameters. |
| ParametersAssertions.CountMismatchIgnoresMatchers | tests/testutils/src/main/kotlin/io/element/android/tests/testutils/lambda/Assertions.kt:57-60 | When the number of matcher lists differs from the number of calls, the outcome is that count mismatch whatever the matchers are: no arity or matcher check influences it. |
| ParametersAssertions.ArityCheckedBeforeValues | tests/testutils/src/main/kotlin/io/element/android/tests/testutils/lambda/Assertions.kt:61-64 | When all earlier calls match and call i has the wrong arity, the report is that arity mismatch, independent of call i's matchers. |
| CalledOnceParametersAssertions.With | tests/testutils/src/main/kotlin/io/element/android/tests/testutils/lambda/Assertions.kt:44-47 | On a one-call log, succeeds iff that call has the matchers' arity and every argument is accepted; a failure is that call's arity or first value mismatch. On any other log it is a count mismatch against one expected call. |
| CalledOnceParametersAssertions.WithNoParameter | tests/testutils/src/main/kotlin/io/element/android/tests/testutils/lambda/Assertions.kt:49-51 | On a one-call log, succeeds iff that call carried no argument; a failure is always "unexpected parameters". |
| CalledOnceParametersAssertions.TwoArgumentReport | tests/testutils/src/main/kotlin/io/element/android/tests/testutils/lambda/Assertions.kt:45-47 | For one call with arguments a, b and matchers ma, mb, the result passes iff both match. Otherwise it names parameter 0 if ma rejects a, and parameter 1 only when ma accepts a. |
| LambdaRecorderAssertions.IsCalledExactly | tests/testutils/src/main/kotlin/io/element/android/tests/testutils/lambda/Assertions.kt:36-41 | Succeeds iff the log has exactly `times` entries, returning a handle over the same unchanged log. Otherwise it reports both counts. A negative `times` never succeeds. |
| LambdaRecorderAssertions.IsCalledOnce | tests/testutils/src/main/kotlin/io/element/android/tests/testutils/lambda/Assertions.kt:26-30 | Succeeds iff the log has exactly one entry, returning a called-once handle over the same log, which therefore holds exactly one call. Otherwise it reports 1 against the actual count. |
| LambdaRecorderAssertions.IsNeverCalled | tests/testutils/src/main/kotlin/io/element/android/tests/testutils/lambda/Assertions.kt:32-34 | Succeeds iff the log is empty; otherwise reports 0 against the actual count. |
| LambdaRecorderAssertions.CalledOnceWithIsSequenceOfOne | tests/testutils/src/main/kotlin/io/element/android/tests/testutils/lambda/Assertions.kt:44-47 | `isCalledOnce` fails exactly where `isCalledExactly(1)` fails. After it, `with(m1..mk)` gives the same outcome as `withSequence([m1..mk])` on the same log. |
| LambdaRecorderAssertions.ChainedSequenceJudgesRecordedLog | tests/testutils/src/main/kotlin/io/element/android/tests/testutils/lambda/Assertions.kt:36-41 | `isCalledExactly(n)` followed by `withSequence` succeeds iff the recorder's own log has n calls and matches the matcher lists. |
| LambdaRecorderAssertions.WrongCountReportsBoth | tests/testutils/src/main/kotlin/io/element/android/tests/testutils/lambda/Assertions.kt:37-39 | For every n other than the log length k, `isCalledExactly(n)` fails reporting n and k. |
| AssertionScenarios.EmptyLogScenario | tests/testutils/src/main/kotlin/io/element/android/tests/testutils/lambda/Assertions.kt:26-41 | An empty log passes `isNeverCalled` and `isCalledExactly(0)` and fails `isCalledOnce` with 1 against 0. |
| AssertionScenarios.TwoCallScenario | tests/testutils/src/main/kotlin/io/element/android/tests/testutils/lambda/Assertions.kt:57-73 | Calls ("x",1), ("y",2) pass the matching sequence. Expecting "z" in the second call fails at invocation 1, parameter 0, with actual "y". |
| AssertionScenarios.ArityScenario | tests/testutils/src/main/kotlin/io/element/android/tests/testutils/lambda/Assertions.kt:61-64 | One call of two arguments against three matchers is an arity mismatch (3 expected, 2 recorded) whatever the matchers accept. |
| AssertionScenarios.NoParameterScenario | tests/testutils/src/main/kotlin/io/element/android/tests/testutils/lambda/Assertions.kt:75-79 | `withNoParameter` fails when any call carried an argument and passes when none did. |
| EmojiSearch.IndexOfIgnoreCase | features/messages/impl/src/main/kotlin/io/element/android/features/messages/impl/timeline/components/customreaction/EmojiPickerStatePresenter.kt:46 | Returns the least offset at or after `from` where the query occurs ignoring case, or -1 iff there is none. |
| EmojiSearch.ContainsIgnoreCase | features/messages/impl/src/main/kotlin/io/element/android/features/messages/impl/timeline/components/customreaction/EmojiPickerStatePresenter.kt:46 | True iff the query occurs, ignoring case, at some offset of the string. |
| EmojiSearch.AnyContains | features/messages/impl/src/main/kotlin/io/element/android/features/messages/impl/timeline/components/customreaction/EmojiPickerStatePresenter.kt:47-48 | True iff some string of the list contains the query ignoring case. |
| EmojiSearch.Keeps | features/messages/impl/src/main/kotlin/io/element/android/features/messages/impl/timeline/components/customreaction/EmojiPickerStatePresenter.kt:45-49 | An emoji is kept iff its label, some tag (when tags are present) or some shortcode contains the query ignoring case. |
| EmojiSearch.Search | features/messages/impl/src/main/kotlin/io/element/android/features/messages/impl/timeline/components/customreaction/EmojiPickerStatePresenter.kt:45-49 | An emoji is in the result iff it is in the catalogue and kept by the query; the result is no longer than the catalogue. |
| EmojiSearch.SearchIsSubsequence | features/messages/impl/src/main/kotlin/io/element/android/features/messages/impl/timeline/components/customreaction/EmojiPickerStatePresenter.kt:45-49 | The result is an order-preserving subsequence of the catalogue. |
| EmojiSearch.SearchKeepsMultiplicities | features/messages/impl/src/main/kotlin/io/element/android/features/messages/impl/timeline/components/customreaction/EmojiPickerStatePresenter.kt:45-49 | Each kept emoji occurs in the result as often as in the catalogue; every other emoji does not occur. |
| EmojiSearch.EveryStringContainsEmpty | features/messages/impl/src/main/kotlin/io/element/android/features/messages/impl/timeline/components/customreaction/EmojiPickerStatePresenter.kt:46 | Every string contains the empty query. |
| EmojiSearch.EmptyQueryKeepsEverything | features/messages/impl/src/main/kotlin/io/element/android/features/messages/impl/timeline/components/customreaction/EmojiPickerStatePresenter.kt:45-49 | With an empty query the result is the whole catalogue, in order. |
| EmojiSearch.AbsentTagsActAsEmpty | features/messages/impl/src/main/kotlin/io/element/android/features/messages/impl/timeline/components/customreaction/EmojiPickerStatePresenter.kt:47 | An emoji with null tags is judged on its label and shortcodes only, exactly as with an empty tag list. |
| EmojiSearch.LabelQueryFindsEmoji | features/messages/impl/src/main/kotlin/io/element/android/features/messages/impl/timeline/components/customreaction/EmojiPickerStatePresenter.kt:46 | Searching for an emoji's own label always keeps that emoji. |
| EmojiSearch.CharEqualsIgnoresQueryCase | features/messages/impl/src/main/kotlin/io/element/android/features/messages/impl/timeline/components/customreaction/EmojiPickerStatePresenter.kt:46 | Upper-casing a query character does not change which text characters it equals ignoring case. |
| EmojiSearch.ContainsIgnoresQueryCase | features/messages/impl/src/main/kotlin/io/element/android/features/messages/impl/timeline/components/customreaction/EmojiPickerStatePresenter.kt:46 | A string contains a query ignoring case iff it contains the upper-cased query. |
| EmojiSearch.KeepsIgnoresQueryCase | features/messages/impl/src/main/kotlin/io/element/android/features/messages/impl/timeline/components/customreaction/EmojiPickerStatePresenter.kt:46-48 | An emoji is kept by a query iff it is kept by the upper-cased query. |
| EmojiSearch.SearchIgnoresQueryCase | features/messages/impl/src/main/kotlin/io/element/android/features/messages/impl/timeline/components/customreaction/EmojiPickerStatePresenter.kt:45-49 | The search result for the upper-cased query is the same sequence as for the query as typed. |
| EmojiSearch.MixedCaseExamples | features/messages/impl/src/main/kotlin/io/element/android/features/messages/impl/timeline/components/customreaction/EmojiPickerStatePresenter.kt:46 | "smile" contains "SMILE", and "Grinning Face" contains "face". |
| EmojiPickerPresenter.InitialSearchState | features/messages/impl/src/main/kotlin/io/element/android/features/messages/impl/timeline/components/customreaction/EmojiPickerStatePresenter.kt:40-41 | The saved state starts with an empty query and search active. |
| EmojiPickerPresenter.InitialPresenterState | features/messages/impl/src/main/kotlin/io/element/android/features/messages/impl/timeline/components/customreaction/EmojiPickerStatePresenter.kt:40-42 | The presenter starts from the initial saved state and the `Initial` result slot. |
| EmojiPickerPresenter.Reduce | features/messages/impl/src/main/kotlin/io/element/android/features/messages/impl/timeline/components/customreaction/EmojiPickerStatePresenter.kt:58-70 | `OnSearchActiveChanged(a)` sets only the flag, `UpdateSearchQuery(q)` sets only the query, and `Reset` yields the initial state. |
| EmojiPickerPresenter.Dispatch | features/messages/impl/src/main/kotlin/io/element/android/features/messages/impl/timeline/components/customreaction/EmojiPickerStatePresenter.kt:57-71 | Delivering an event moves the saved state by the reducer and never changes the published search results. |
| EmojiPickerPresenter.RunFollowsReducer | features/messages/impl/src/main/kotlin/io/element/android/features/messages/impl/timeline/components/customreaction/EmojiPickerStatePresenter.kt:44-71 | Under any interleaving of events and search runs, the presenter's saved state is the reducer's fold over the events alone. |
| EmojiPickerPresenter.RunQueryIsLastWrite | features/messages/impl/src/main/kotlin/io/element/android/features/messages/impl/timeline/components/customreaction/EmojiPickerStatePresenter.kt:40-71 | From a fresh picker, under any interleaving of events and search runs, the query is the last one an event wrote, with a reset writing "", or "" if none was written. |
| EmojiPickerPresenter.RunSearchEffect | features/messages/impl/src/main/kotlin/io/element/android/features/messages/impl/timeline/components/customreaction/EmojiPickerStatePresenter.kt:44-51 | The search effect leaves the saved state alone and publishes a `Results` value. It contains exactly the catalogue emojis the current query keeps. |
| EmojiPickerPresenter.ActiveChangeKeepsQuery | features/messages/impl/src/main/kotlin/io/element/android/features/messages/impl/timeline/components/customreaction/EmojiPickerStatePresenter.kt:59-62 | `OnSearchActiveChanged(a)` sets the flag to a and leaves the query unchanged. |
| EmojiPickerPresenter.QueryUpdateKeepsActive | features/messages/impl/src/main/kotlin/io/element/android/features/messages/impl/timeline/components/customreaction/EmojiPickerStatePresenter.kt:63-65 | `UpdateSearchQuery(q)` sets the query to q and leaves the flag unchanged. |
| EmojiPickerPresenter.ResetRestoresInitial | features/messages/impl/src/main/kotlin/io/element/android/features/messages/impl/timeline/components/customreaction/EmojiPickerStatePresenter.kt:66-69 | `Reset` yields the initial state from any state, and resetting twice equals resetting once. |
| EmojiPickerPresenter.QueryAndActiveCommute | features/messages/impl/src/main/kotlin/io/element/android/features/messages/impl/timeline/components/customreaction/EmojiPickerStatePresenter.kt:59-65 | A query update and an active change commute. |
| EmojiPickerPresenter.ResetForgetsHistory | features/messages/impl/src/main/kotlin/io/element/android/features/messages/impl/timeline/components/customreaction/EmojiPickerStatePresenter.kt:66-69 | After a `Reset`, the state depends only on the events that follow it. |
| EmojiPickerPresenter.ReduceAllIsLastWrite | features/messages/impl/src/main/kotlin/io/element/android/features/messages/impl/timeline/components/customreaction/EmojiPickerStatePresenter.kt:57-71 | After any event sequence, the query is the last one written, with a reset writing "", or the starting query if none was written. Likewise the flag is the last one written, with a reset writing true. |
| EmojiPickerPresenter.FirstSearchListsEverything | features/messages/impl/src/main/kotlin/io/element/android/features/messages/impl/timeline/components/customreaction/EmojiPickerStatePresenter.kt:40-50 | A freshly shown picker, once its first search has run, publishes the whole catalogue in order. |
| EmojiPickerPresenter.SearchEffectDependsOnQueryOnly | features/messages/impl/src/main/kotlin/io/element/android/features/messages/impl/timeline/components/customreaction/EmojiPickerStatePresenter.kt:44-51 | The published results depend on the query alone, and rerunning the effect for the same query changes nothing. |
| EmojiPickerPresenter.NeverNoResultsFound | features/messages/impl/src/main/kotlin/io/element/android/features/messages/impl/timeline/components/customreaction/EmojiPickerStatePresenter.kt:42-50 | From the initial state, no interleaving of events and search runs leaves the result slot at `NoResultsFound`. |

## Left out

- The recorder itself (`LambdaRecorder`) and `ParameterMatcher` are not part of this model. The log is given as a value and a matcher is an arbitrary total predicate.
- Failure messages are not modelled. A failure is a datatype carrying the counts, indices and rejected argument. The matcher's own description, which the message prints as "expected", is not carried because a matcher here is a bare predicate.
- Repeating an assertion on the same handle: every assertion is a function of an immutable log value, so a second call gives the same outcome by construction. No separate lemma states this.
- Call counts are unbounded integers. The source's 32-bit `Int` never differs from it here, because a list size is always a non-negative `Int`.
- Unicode case mapping: `UppercaseChar` and `LowercaseChar` map only ASCII letters. The platform's full case tables are not modelled. The case-invariance lemmas rely only on upper-casing being idempotent; the other filter properties do not depend on the tables.
- The Compose runtime is not modelled: `rememberSaveable`, `mutableStateOf`, recomposition, and Timber logging. The asynchronous `LaunchedEffect` is modelled only as an explicit step (`RunSearchEffect`) that runs for the current query. Cancellation of a stale effect is not modelled.
- The `Emoji` record keeps only the label, tags and shortcodes. The other fields do not affect the search. The label field is named `labelText` because `label` is a Dafny keyword.
- The picker's UI (layout, tabs, pager, focus, keyboard and back handling) is not modelled. Neither are the voice-message preview data, the rageshake and room-directory test doubles, the event and room-description declarations, or the build configuration: none of them holds state logic.
