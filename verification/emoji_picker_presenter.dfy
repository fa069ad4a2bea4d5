/** The emoji picker presenter: the saved search state `(searchQuery,
    isSearchActive)`, the reducer behind its event sink, and the search
    results refreshed by the effect that runs whenever the query changes.
 */
module EmojiPickerPresenter {
  import opened EmojiSearch

  /** The events the picker's UI sends. */
  datatype Event =
    | OnSearchActiveChanged(active: bool)
    | UpdateSearchQuery(query: string)
    | Reset

  /** The state the presenter saves across recompositions. */
  datatype SearchState = SearchState(searchQuery: string, isSearchActive: bool)

  /** The search bar's result slot. The presenter itself only ever produces
      `Initial` and `Results`; an empty match is `Results([])`. */
  datatype SearchBarResultState =
    | Initial
    | NoResultsFound
    | Results(results: seq<Emoji>)

  /** Everything the presenter holds: the saved search state and the results
      last published by the search effect. */
  datatype PresenterState = PresenterState(search: SearchState, searchResults: SearchBarResultState)

  /** The state of a freshly shown picker. */
  function InitialSearchState(): (s: SearchState)
    ensures s.searchQuery == [] && s.isSearchActive
  {
    SearchState("", true)
  }

  function InitialPresenterState(): (p: PresenterState)
    ensures p.search == InitialSearchState() && p.searchResults.Initial?
  {
    PresenterState(InitialSearchState(), Initial)
  }

  /** The event sink's reducer over the saved state: each event writes its
      own field and leaves the other one alone; a reset writes both, back to
      the initial state. */
  function Reduce(s: SearchState, e: Event): (r: SearchState)
    ensures e.OnSearchActiveChanged? ==>
              r.isSearchActive == e.active && r.searchQuery == s.searchQuery
    ensures e.UpdateSearchQuery? ==>
              r.searchQuery == e.query && r.isSearchActive == s.isSearchActive
    ensures e.Reset? ==> r == InitialSearchState()
  {
    match e
    case OnSearchActiveChanged(active) => s.(isSearchActive := active)
    case UpdateSearchQuery(query) => s.(searchQuery := query)
    case Reset => SearchState("", true)
  }

  /** The saved state after a sequence of events, oldest first. */
  function ReduceAll(s: SearchState, events: seq<Event>): (r: SearchState)
    decreases |events|
  {
    if |events| == 0 then s else ReduceAll(Reduce(s, events[0]), events[1..])
  }

  /** Delivering an event to the presenter: the reducer moves the saved
      state and the published results stay as they were. */
  function Dispatch(p: PresenterState, e: Event): (r: PresenterState)
    ensures r.search == Reduce(p.search, e)
    ensures r.searchResults == p.searchResults
  {
    p.(search := Reduce(p.search, e))
  }

  /** The search effect for the current query: publishes, as `Results`, the
      catalogue filtered by the query, leaving the saved state alone. */
  function RunSearchEffect(p: PresenterState, allEmojis: seq<Emoji>): (r: PresenterState)
    ensures r.search == p.search
    ensures r.searchResults.Results?
    ensures forall e :: e in r.searchResults.results <==> e in allEmojis && Keeps(e, p.search.searchQuery)
  {
    p.(searchResults := Results(Search(allEmojis, p.search.searchQuery)))
  }

  /** Changing whether search is active leaves the query as it was. */
  lemma ActiveChangeKeepsQuery(s: SearchState, active: bool)
    ensures Reduce(s, OnSearchActiveChanged(active)).searchQuery == s.searchQuery
    ensures Reduce(s, OnSearchActiveChanged(active)).isSearchActive == active
  {
  }

  /** Updating the query leaves the search-active flag as it was. */
  lemma QueryUpdateKeepsActive(s: SearchState, query: string)
    ensures Reduce(s, UpdateSearchQuery(query)).isSearchActive == s.isSearchActive
    ensures Reduce(s, UpdateSearchQuery(query)).searchQuery == query
  {
  }

  /** Reset returns any state to the initial one, and resetting twice is the
      same as resetting once. */
  lemma ResetRestoresInitial(s: SearchState)
    ensures Reduce(s, Reset) == InitialSearchState()
    ensures Reduce(Reduce(s, Reset), Reset) == Reduce(s, Reset)
  {
  }

  /** The two fields are independent: a query update and an active change
      commute. */
  lemma QueryAndActiveCommute(s: SearchState, query: string, active: bool)
    ensures Reduce(Reduce(s, UpdateSearchQuery(query)), OnSearchActiveChanged(active))
            == Reduce(Reduce(s, OnSearchActiveChanged(active)), UpdateSearchQuery(query))
  {
  }

  /** Folding over a concatenation is folding over each part in turn. */
  lemma {:induction false} ReduceAllAppend(s: SearchState, a: seq<Event>, b: seq<Event>)
    ensures ReduceAll(s, a + b) == ReduceAll(ReduceAll(s, a), b)
    decreases |a|
  {
    if |a| > 0 {
      assert (a + b)[0] == a[0];
      assert (a + b)[1..] == a[1..] + b;
      ReduceAllAppend(Reduce(s, a[0]), a[1..], b);
    } else {
      assert a + b == b;
    }
  }

  /** A reset forgets everything that came before it. */
  lemma {:induction false} ResetForgetsHistory(s: SearchState, before: seq<Event>, after: seq<Event>)
    ensures ReduceAll(s, before + [Reset] + after) == ReduceAll(InitialSearchState(), after)
  {
    ReduceAllAppend(s, before + [Reset], after);
    ReduceAllAppend(s, before, [Reset]);
    assert ReduceAll(ReduceAll(s, before), [Reset]) == InitialSearchState();
  }

  /** The query most recently written by `events` (a reset writes ""), if any. */
  function LastQueryWrite(events: seq<Event>): (r: Option<string>)
    decreases |events|
  {
    if |events| == 0 then None
    else match events[|events| - 1]
      case UpdateSearchQuery(q) => Some(q)
      case Reset => Some("")
      case OnSearchActiveChanged(_) => LastQueryWrite(events[..|events| - 1])
  }

  /** The flag most recently written by `events` (a reset writes true), if any. */
  function LastActiveWrite(events: seq<Event>): (r: Option<bool>)
    decreases |events|
  {
    if |events| == 0 then None
    else match events[|events| - 1]
      case OnSearchActiveChanged(a) => Some(a)
      case Reset => Some(true)
      case UpdateSearchQuery(_) => LastActiveWrite(events[..|events| - 1])
  }

  /** Each field of the saved state is last-writer-wins: after any sequence of
      events, the query is the last one written (or the starting one if none
      was), and likewise the search-active flag. */
  lemma {:induction false} ReduceAllIsLastWrite(s: SearchState, events: seq<Event>)
    ensures ReduceAll(s, events).searchQuery
            == match LastQueryWrite(events) case Some(q) => q case None => s.searchQuery
    ensures ReduceAll(s, events).isSearchActive
            == match LastActiveWrite(events) case Some(a) => a case None => s.isSearchActive
    decreases |events|
  {
    if |events| > 0 {
      var init, last := events[..|events| - 1], events[|events| - 1];
      assert events == init + [last];
      ReduceAllAppend(s, init, [last]);
      ReduceAllIsLastWrite(s, init);
    }
  }

  /** A freshly shown picker, once its first search has run, lists the whole
      catalogue in order. */
  lemma FirstSearchListsEverything(allEmojis: seq<Emoji>)
    ensures RunSearchEffect(InitialPresenterState(), allEmojis).searchResults == Results(allEmojis)
  {
    EmptyQueryKeepsEverything(allEmojis);
  }

  /** The published results depend on the query alone, and rerunning the
      effect for an unchanged query changes nothing. */
  lemma SearchEffectDependsOnQueryOnly(p: PresenterState, p': PresenterState, allEmojis: seq<Emoji>)
    requires p.search.searchQuery == p'.search.searchQuery
    ensures RunSearchEffect(p, allEmojis).searchResults == RunSearchEffect(p', allEmojis).searchResults
    ensures RunSearchEffect(RunSearchEffect(p, allEmojis), allEmojis) == RunSearchEffect(p, allEmojis)
  {
  }

  /** The presenter never reports `NoResultsFound`: starting from the initial
      state, any interleaving of events and search runs leaves the result slot
      `Initial` or `Results`. */
  lemma {:induction false} NeverNoResultsFound(steps: seq<Option<Event>>, allEmojis: seq<Emoji>)
    ensures !Run(InitialPresenterState(), steps, allEmojis).searchResults.NoResultsFound?
    decreases |steps|
  {
    if |steps| > 0 {
      var init := steps[..|steps| - 1];
      NeverNoResultsFound(init, allEmojis);
    }
  }

  /** Runs the presenter through `steps`, oldest first: `Some(e)` delivers
      event `e`, `None` runs the search effect for the current query. */
  function Run(p: PresenterState, steps: seq<Option<Event>>, allEmojis: seq<Emoji>): (r: PresenterState)
    decreases |steps|
  {
    if |steps| == 0 then p
    else
      var q := Run(p, steps[..|steps| - 1], allEmojis);
      match steps[|steps| - 1]
      case Some(e) => Dispatch(q, e)
      case None => RunSearchEffect(q, allEmojis)
  }

  /** The events among `steps`, in order; search runs are dropped. */
  function Events(steps: seq<Option<Event>>): (events: seq<Event>)
    decreases |steps|
  {
    if |steps| == 0 then []
    else
      var init := Events(steps[..|steps| - 1]);
      match steps[|steps| - 1]
      case Some(e) => init + [e]
      case None => init
  }

  /** Search runs never touch the saved state: after any interleaving of
      events and search runs, the saved state is the reducer's fold over the
      events alone. */
  lemma {:induction false} RunFollowsReducer(p: PresenterState, steps: seq<Option<Event>>, allEmojis: seq<Emoji>)
    ensures Run(p, steps, allEmojis).search == ReduceAll(p.search, Events(steps))
    decreases |steps|
  {
    if |steps| > 0 {
      var init := steps[..|steps| - 1];
      RunFollowsReducer(p, init, allEmojis);
      match steps[|steps| - 1]
      case Some(e) =>
        ReduceAllAppend(p.search, Events(init), [e]);
        assert ReduceAll(ReduceAll(p.search, Events(init)), [e])
               == Reduce(ReduceAll(p.search, Events(init)), e);
      case None =>
    }
  }

  /** After any interleaving of events and search runs from the initial
      state, the query on screen is the last one written by an event (a reset
      writes ""), or "" when none was. */
  lemma RunQueryIsLastWrite(steps: seq<Option<Event>>, allEmojis: seq<Emoji>)
    ensures Run(InitialPresenterState(), steps, allEmojis).search.searchQuery
            == match LastQueryWrite(Events(steps)) case Some(q) => q case None => ""
  {
    RunFollowsReducer(InitialPresenterState(), steps, allEmojis);
    ReduceAllIsLastWrite(InitialSearchState(), Events(steps));
  }
}
