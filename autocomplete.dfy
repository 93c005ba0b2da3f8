/** The state of the meal-search autocomplete component and the transitions its event
    handlers and effects perform, as functions on a value. The class in module Widget
    performs the same transitions in place. */
module Autocomplete {
  import opened Meals
  import opened Navigation

  datatype Option<T> = None | Some(value: T)

  /** Why a handler threw: `suggestions[index]` was undefined, so reading `.strMeal` failed. */
  datatype HandlerError = UndefinedSuggestion(index: int, count: nat)

  datatype Result<T> = Ok(value: T) | Failure(error: HandlerError)

  /** The keys the keyboard handler distinguishes; every other key is `OtherKey`. */
  datatype Key = ArrowDown | ArrowUp | Enter | OtherKey

  /** The six state fields of the component, plus the two pieces of pending work that
      the timer and the network hold for it:
      - `pendingCommit`: the debounce timer, holding the query it will commit when it fires
        (at most one: each new query cancels the previous timer);
      - `inFlight`: the number of search requests issued whose responses have not arrived. */
  datatype State = State(
    query: string,
    debouncedQuery: string,
    suggestions: seq<Meal>,
    isDropdownVisible: bool,
    hasTyped: bool,
    highlightedIndex: int,
    pendingCommit: Option<string>,
    inFlight: nat)

  /** The state right after mounting: every field at its initial value, the mount-time
      debounce timer pending with the empty query, and no request issued (the
      debounced-query effect sees an empty query on mount and fetches nothing). */
  function Init(): (r: State)
    ensures r.query == "" && r.debouncedQuery == "" && r.suggestions == []
    ensures !r.isDropdownVisible && !r.hasTyped && r.highlightedIndex == -1
    ensures r.pendingCommit == Some("") && r.inFlight == 0
    ensures DebounceConsistent(r) && IndexInRange(r)
  {
    State("", "", [], false, false, -1, Some(""), 0)
  }

  /** The debounce timer is always armed with the current query, and when no timer is
      pending the debounced query has caught up with the query. */
  predicate DebounceConsistent(s: State)
  {
    match s.pendingCommit
    case Some(v) => v == s.query
    case None => s.debouncedQuery == s.query
  }

  /** The highlighted index is -1 or a row of the current suggestion list. */
  predicate IndexInRange(s: State)
  {
    InRange(s.highlightedIndex, |s.suggestions|)
  }

  // ---------------------------------------------------------------------------
  // Rendering

  /** The suggestion list (and with it the element the dropdown ref points to) is rendered. */
  predicate ListShown(s: State): (b: bool)
    ensures !s.isDropdownVisible || s.suggestions == [] ==> !b
    ensures b ==> !NoSuggestionsShown(s)
  {
    s.isDropdownVisible && |s.suggestions| > 0
  }

  /** The "No suggestions found" row is rendered. */
  predicate NoSuggestionsShown(s: State): (b: bool)
    ensures !s.hasTyped ==> !b
    ensures b ==> s.isDropdownVisible && s.suggestions == []
  {
    s.isDropdownVisible && s.hasTyped && |s.suggestions| == 0
  }

  /** Row `i` of the rendered list carries the highlighted style. */
  predicate RowHighlighted(s: State, i: int): (b: bool)
    ensures b ==> ListShown(s) && IndexInRange(s) && s.highlightedIndex == i >= 0
  {
    ListShown(s) && 0 <= i < |s.suggestions| && s.highlightedIndex == i
  }

  // ---------------------------------------------------------------------------
  // Transitions

  /** A `setQuery(v)`: the query becomes `v` and, when the value actually changed, the
      debounce effect cancels the pending timer and arms a new one for `v`. */
  function WithQuery(s: State, v: string): (r: State)
    ensures r.query == v
    ensures v != s.query ==> r.pendingCommit == Some(v)
    ensures v == s.query ==> r == s
    ensures DebounceConsistent(s) ==> DebounceConsistent(r)
    ensures r.(query := s.query, pendingCommit := s.pendingCommit) == s
  {
    s.(query := v, pendingCommit := if v != s.query then Some(v) else s.pendingCommit)
  }

  /** Typing: the query takes the input's text and the user counts as having typed. */
  function InputChanged(s: State, text: string): (r: State)
    ensures r.query == text && r.hasTyped
    ensures text != s.query ==> r.pendingCommit == Some(text)
    ensures r.(query := s.query, hasTyped := s.hasTyped, pendingCommit := s.pendingCommit) == s
    ensures DebounceConsistent(s) ==> DebounceConsistent(r)
    ensures r.debouncedQuery == s.debouncedQuery && r.inFlight == s.inFlight
  {
    WithQuery(s, text).(hasTyped := true)
  }

  /** Focusing the input opens the dropdown and clears `hasTyped`, so a focused input never
      shows "No suggestions found", and shows the list exactly when there are suggestions. */
  function InputFocused(s: State): (r: State)
    ensures r.isDropdownVisible && !r.hasTyped
    ensures r.(isDropdownVisible := s.isDropdownVisible, hasTyped := s.hasTyped) == s
    ensures !NoSuggestionsShown(r)
    ensures ListShown(r) <==> |s.suggestions| > 0
  {
    s.(isDropdownVisible := true, hasTyped := false)
  }

  /** Clicking a row with meal name `name`: the query becomes that name, the dropdown
      closes and nothing is highlighted; suggestions, the debounced query, `hasTyped` and the
      requests in flight are untouched. */
  function SuggestionClicked(s: State, name: string): (r: State)
    ensures r.query == name && !r.isDropdownVisible && r.highlightedIndex == -1
    ensures r.suggestions == s.suggestions && r.debouncedQuery == s.debouncedQuery
    ensures r.hasTyped == s.hasTyped && r.inFlight == s.inFlight
    ensures name != s.query ==> r.pendingCommit == Some(name)
    ensures name == s.query ==> r.pendingCommit == s.pendingCommit
    ensures !ListShown(r) && !NoSuggestionsShown(r)
    ensures IndexInRange(r)
    ensures DebounceConsistent(s) ==> DebounceConsistent(r)
  {
    WithQuery(s, name).(isDropdownVisible := false, highlightedIndex := -1)
  }

  /** ArrowDown: only the highlighted index moves, by the clamped forward step. */
  function PressedArrowDown(s: State): (r: State)
    ensures r.(highlightedIndex := s.highlightedIndex) == s
    ensures r.highlightedIndex == s.highlightedIndex + 1 <==> s.highlightedIndex < |s.suggestions| - 1
    ensures r.highlightedIndex != s.highlightedIndex + 1 ==> r == s
    ensures IndexInRange(s) ==> IndexInRange(r)
  {
    s.(highlightedIndex := NextIndex(s.highlightedIndex, |s.suggestions|))
  }

  /** ArrowUp: only the highlighted index moves, by the clamped backward step. */
  function PressedArrowUp(s: State): (r: State)
    ensures r.(highlightedIndex := s.highlightedIndex) == s
    ensures r.highlightedIndex == s.highlightedIndex - 1 <==> s.highlightedIndex > 0
    ensures r.highlightedIndex != s.highlightedIndex - 1 ==> r == s
    ensures IndexInRange(s) ==> IndexInRange(r)
  {
    s.(highlightedIndex := PrevIndex(s.highlightedIndex))
  }

  /** Enter: with a highlighted row it does exactly what clicking that row does; with
      index -1 it changes nothing; with an index past the end of the list the lookup is
      undefined and the handler throws, leaving the state as it was. */
  function PressedEnter(s: State): (r: Result<State>)
    ensures r.Failure? <==> s.highlightedIndex >= |s.suggestions|
    ensures s.highlightedIndex < 0 ==> r == Ok(s)
    ensures 0 <= s.highlightedIndex < |s.suggestions| ==>
              r == Ok(SuggestionClicked(s, s.suggestions[s.highlightedIndex].name))
    ensures IndexInRange(s) ==> r.Ok?
  {
    if s.highlightedIndex < 0 then Ok(s)
    else if s.highlightedIndex < |s.suggestions| then
      Ok(SuggestionClicked(s, s.suggestions[s.highlightedIndex].name))
    else Failure(UndefinedSuggestion(s.highlightedIndex, |s.suggestions|))
  }

  /** The keyboard handler: dispatches on the key; keys other than the three it knows
      change nothing. */
  function KeyDown(s: State, key: Key): (r: Result<State>)
    ensures key == OtherKey ==> r == Ok(s)
    ensures key == ArrowDown ==> r == Ok(PressedArrowDown(s))
    ensures key == ArrowUp ==> r == Ok(PressedArrowUp(s))
    ensures key == Enter ==> r == PressedEnter(s)
    ensures r.Failure? ==> key == Enter
  {
    match key
    case ArrowDown => Ok(PressedArrowDown(s))
    case ArrowUp => Ok(PressedArrowUp(s))
    case Enter => PressedEnter(s)
    case OtherKey => Ok(s)
  }

  /** A mouse-down anywhere on the page. `inDropdown` and `inInput` say whether the target
      lies inside the rendered suggestion list and inside the input. The dropdown ref is
      set only while the list is rendered, so the reset happens only then. */
  function ClickedOutside(s: State, inDropdown: bool, inInput: bool): (r: State)
    ensures ListShown(s) && !inDropdown && !inInput ==>
              r.query == "" && !r.isDropdownVisible && r.highlightedIndex == -1 &&
              r.suggestions == s.suggestions && r.debouncedQuery == s.debouncedQuery &&
              r.hasTyped == s.hasTyped && r.inFlight == s.inFlight &&
              !ListShown(r) && !NoSuggestionsShown(r)
    ensures ListShown(s) && !inDropdown && !inInput ==>
              r.pendingCommit == WithQuery(s, "").pendingCommit
    ensures !(ListShown(s) && !inDropdown && !inInput) ==> r == s
    ensures DebounceConsistent(s) ==> DebounceConsistent(r)
    ensures IndexInRange(s) ==> IndexInRange(r)
  {
    if ListShown(s) && !inDropdown && !inInput then
      WithQuery(s, "").(isDropdownVisible := false, highlightedIndex := -1)
    else s
  }

  /** The effect that runs when the debounced query changes: an empty query clears the
      suggestions and hides the dropdown without a request; otherwise one request is issued
      and the dropdown is shown at once, before any response. */
  function DebouncedQueryEffect(s: State): (r: State)
    ensures r.query == s.query && r.debouncedQuery == s.debouncedQuery && r.hasTyped == s.hasTyped
    ensures r.highlightedIndex == s.highlightedIndex && r.pendingCommit == s.pendingCommit
    ensures s.debouncedQuery == "" ==>
              r.suggestions == [] && !r.isDropdownVisible && r.inFlight == s.inFlight &&
              !ListShown(r) && !NoSuggestionsShown(r)
    ensures s.debouncedQuery != "" ==>
              r.isDropdownVisible && r.inFlight == s.inFlight + 1 && r.suggestions == s.suggestions
  {
    if s.debouncedQuery != "" then s.(isDropdownVisible := true, inFlight := s.inFlight + 1)
    else s.(suggestions := [], isDropdownVisible := false)
  }

  /** The debounce timer fires: the debounced query takes the value the timer was armed
      with, and when that differs from the previous debounced query the effect above runs. */
  function TimerFired(s: State): (r: State)
    requires s.pendingCommit.Some?
    ensures r.debouncedQuery == s.pendingCommit.value && r.pendingCommit == None
    ensures r.query == s.query && r.hasTyped == s.hasTyped
    ensures r.highlightedIndex == s.highlightedIndex
    ensures s.pendingCommit.value == s.debouncedQuery ==> r == s.(pendingCommit := None)
    ensures s.pendingCommit.value != s.debouncedQuery && s.pendingCommit.value == "" ==>
              r.suggestions == [] && !r.isDropdownVisible && r.inFlight == s.inFlight
    ensures s.pendingCommit.value != s.debouncedQuery && s.pendingCommit.value != "" ==>
              r.suggestions == s.suggestions && r.isDropdownVisible && r.inFlight == s.inFlight + 1
    ensures DebounceConsistent(s) ==> DebounceConsistent(r)
  {
    var committed := s.(debouncedQuery := s.pendingCommit.value, pendingCommit := None);
    if s.pendingCommit.value == s.debouncedQuery then committed
    else DebouncedQueryEffect(committed)
  }

  /** A search response arrives: the suggestion list is replaced wholesale. Nothing else
      changes; in particular the highlighted index is kept as it was. */
  function ResponseArrived(s: State, outcome: FetchOutcome): (r: State)
    requires s.inFlight > 0
    ensures r.suggestions == SuggestionsOf(outcome) && r.inFlight == s.inFlight - 1
    ensures r.(suggestions := s.suggestions, inFlight := s.inFlight) == s
    ensures r.highlightedIndex == s.highlightedIndex
    ensures IndexInRange(s) ==> (IndexInRange(r) <==> s.highlightedIndex < |SuggestionsOf(outcome)|)
    ensures DebounceConsistent(s) ==> DebounceConsistent(r)
  {
    s.(suggestions := SuggestionsOf(outcome), inFlight := s.inFlight - 1)
  }
}
