/** Concrete sessions of the component, from mounting. */
module Scenarios {
  import opened Meals
  import opened Autocomplete
  import opened AutocompleteProperties

  const Curry := Meal("52", "Chicken Curry")
  const Soup := Meal("53", "Chicken Soup")

  /** The state after typing "chick", the timer firing, and the search returning two meals. */
  function AfterSearch(): (r: State)
  {
    Run(Init(), [Typed("chick"), TimerFires, Response(Found([Curry, Soup]))]).state
  }

  /** Typing "chick" and letting the timer fire issues one request; its two meals are listed. */
  lemma SearchShowsTwoRows()
    ensures !Run(Init(), [Typed("chick"), TimerFires, Response(Found([Curry, Soup]))]).threw
    ensures var s := AfterSearch();
      s.query == "chick" && s.debouncedQuery == "chick" &&
      ListShown(s) && s.suggestions == [Curry, Soup] &&
      s.highlightedIndex == -1 && s.inFlight == 0
  {
    var es := [Typed("chick"), TimerFires, Response(Found([Curry, Soup]))];
    var s1 := InputChanged(Init(), "chick");
    var s2 := TimerFired(s1);
    assert s2.inFlight == 1;
    var s3 := ResponseArrived(s2, Found([Curry, Soup]));
    assert Run(s3, es[3..]) == Trace(s3, false);
    assert Run(s2, es[2..]) == Trace(s3, false);
    assert Run(s1, es[1..]) == Trace(s3, false);
  }

  /** ArrowDown then highlights the first row, and Enter selects it and closes the dropdown. */
  lemma ArrowDownThenEnterSelectsFirst()
    ensures RowHighlighted(Run(AfterSearch(), [KeyPressed(ArrowDown)]).state, 0)
    ensures var t := Run(AfterSearch(), [KeyPressed(ArrowDown), KeyPressed(Enter)]);
      !t.threw && t.state.query == "Chicken Curry" && !t.state.isDropdownVisible &&
      t.state.highlightedIndex == -1 && !ListShown(t.state)
  {
    SearchShowsTwoRows();
  }

  /** A search without matches (`meals` is null) shows "No suggestions found". */
  lemma NoMatchesShowsMessage()
    ensures var t := Run(Init(), [Typed("zzz9x"), TimerFires, Response(NoMatches)]);
      !t.threw && t.state.suggestions == [] && NoSuggestionsShown(t.state) && !ListShown(t.state)
  {
  }

  /** Typing and deleting within the debounce window: the timer commits "", which equals the
      committed query, so the effect does not run. The dropdown opened by the focus stays
      visible and "No suggestions found" is shown for an empty input. */
  lemma ClearWithinDebounceKeepsMessage()
    ensures var t := Run(Init(), [TimerFires, Focused, Typed("x"), Typed(""), TimerFires]);
      !t.threw && t.state.query == "" && t.state.debouncedQuery == "" &&
      t.state.isDropdownVisible && NoSuggestionsShown(t.state)
  {
  }

  /** A failed request looks the same to the user as a search without matches. */
  lemma FailureLooksLikeNoMatches()
    ensures Run(Init(), [Typed("zzz9x"), TimerFires, Response(FetchFailed)])
         == Run(Init(), [Typed("zzz9x"), TimerFires, Response(NoMatches)])
  {
  }

  /** A mouse-down outside the input and the open list clears the query, closes the dropdown
      and drops the highlight; the timer it re-arms then commits "" and empties the list. */
  lemma OutsideClickResets()
    ensures var t := Run(AfterSearch(), [KeyPressed(ArrowDown), MouseDown(false, false)]);
      !t.threw && t.state.query == "" && !t.state.isDropdownVisible && t.state.highlightedIndex == -1 &&
      t.state.pendingCommit == Some("")
    ensures var t := Run(AfterSearch(), [KeyPressed(ArrowDown), MouseDown(false, false), TimerFires]);
      !t.threw && t.state.debouncedQuery == "" && t.state.suggestions == [] &&
      !ListShown(t.state) && !NoSuggestionsShown(t.state)
  {
    SearchShowsTwoRows();
  }

  /** Selecting a row changes the query, so after the debounce the selected name is itself
      searched and the dropdown opens again. */
  lemma SelectionIsSearchedAgain()
    ensures var t := Run(AfterSearch(), [ClickedRow(1), TimerFires]);
      t.state.query == "Chicken Soup" && t.state.debouncedQuery == "Chicken Soup" &&
      t.state.isDropdownVisible && t.state.inFlight == 1
  {
    SearchShowsTwoRows();
  }
}
