# Meal-search autocomplete: a verified model of its state machine

The component in `src/App.js` has one text input. It debounces typing by 300 ms, sends the
debounced query to a meal search endpoint, and shows the returned meals in a dropdown. The
user picks a meal with the mouse or with ArrowDown/ArrowUp/Enter. While the suggestion list
is shown, a mouse-down outside the widget clears it. This project models the state behind that widget:
- six state fields: query, debounced query, suggestions, dropdown visibility, "has typed" and the highlighted index;
- the pending debounce timer, as one slot holding the query it will commit;
- the number of search requests still waiting for a response.

Modules:
- `Meals` (meals.dfy): a suggestion (`idMeal`, `strMeal`) and the outcome of one request.
- `Navigation` (navigation.dfy): the index updaters behind ArrowDown and ArrowUp, as pure functions, with lemmas about repeated presses.
- `Autocomplete` (autocomplete.dfy): the state as a value, the two render conditions, and one function per handler or effect.
- `AutocompleteProperties` (properties.dfy): rendering guarantees, the debounce, and runs of whole event sequences.
- `StaleIndex` (stale_index.dfy): the highlighted index going stale, and a corrected component that never does.
- `Scenarios` (scenarios.dfy): concrete sessions starting from mount.
- `Widget` (widget.dfy): the component as a class. Its handlers update the fields in place. Each one is proved to perform the matching `Autocomplete` transition and to keep the debounce invariant.

React re-runs the debounce effect only when `query` changes value. So a `setQuery` with the
same value keeps the timer already pending (`Autocomplete.WithQuery`). The debounced-query
effect runs only when the committed value differs from the previous one. On mount, a timer
is armed with the empty query.

A response may arrive at any time after its request was issued, in any order. Its content
is a parameter of the response event.

The code does not keep the highlighted index inside the suggestion list. A response
(src/App.js:32) or an empty commit (src/App.js:41) replaces the list but leaves the index as
it was. Enter (src/App.js:80) then reads `suggestions[index].strMeal` past the end of the
list and throws. The model follows the code here. It does not assume the index stays in
range. `Autocomplete.PressedEnter` returns a `Failure` in that case, and
`StaleIndex.EnterThrowsAfterShorterResponse` reaches that failure from mount. The intended
design resets the index whenever the list is replaced; `StaleIndex` models that design
separately.

An outside click that resets the widget sets the query to "" (src/App.js:103). That
re-arms the debounce timer, and about 300 ms later the commit of "" empties the suggestion
list (src/App.js:40-43; `Scenarios.OutsideClickResets`).

The outside-click handler checks `dropdownRef.current`. That ref is attached only to the
suggestion list (src/App.js:130), not to the "No suggestions found" row. So an outside click
while only that row is shown changes nothing (`AutocompleteProperties.OutsideClickKeepsNoSuggestionsRow`).
With the list empty, no row can be clicked and Enter selects nothing, and a commit of a new
non-empty query keeps the row. What hides it (`AutocompleteProperties.NoSuggestionsRowLifetime`):
- a focus, which clears "has typed" (src/App.js:54); the outside mouse-down blurs the input,
  so the next click into it is such a focus;
- a commit of "" when the committed query was not already "" (src/App.js:40-43);
- a response that brings meals (src/App.js:32).

Clearing the input does not always hide the dropdown. When the user focuses the input, types
and deletes within the 300 ms window, the timer commits "". That equals the committed query,
so React skips the effect (src/App.js:44). The dropdown opened by the focus stays visible, and
"No suggestions found" is shown under an empty input
(`Scenarios.ClearWithinDebounceKeepsMessage`). `AutocompleteProperties.ClearingInputHidesDropdown`
holds only after a non-empty query was committed.

## Model

| member | source | states |
|---|---|---|
| `Meals.SuggestionsOf` | src/App.js:31-35 | the stored list is the response's `meals`; it is empty when `meals` is null or the request failed |
| `Navigation.NextIndex` | src/App.js:66 | ArrowDown moves the index forward by exactly one step iff it is before the last row, and otherwise leaves it; an index in [-1, n-1] stays in that range |
| `Navigation.PrevIndex` | src/App.js:73 | ArrowUp moves the index back by one iff it is above 0; it never goes below min(index, 0); an index in range stays in range |
| `Navigation.PressDownClamps` | src/App.js:63-69 | k ArrowDown presses from index i give min(i+k, n-1); an index at or past the last row does not move (no wrap-around) |
| `Navigation.PressDownFromNoneStabilises` | src/App.js:63-69 | from -1, at least n presses land on n-1; with no suggestions the index stays -1 |
| `Navigation.PressUpClamps` | src/App.js:70-76 | k ArrowUp presses from i give max(i-k, 0) when i > 0; from 0 or -1 the index never moves |
| `Autocomplete.Init` | src/App.js:5-10 | the mount state: empty query and debounced query, no suggestions, dropdown hidden, not typed, index -1, no request issued, the first timer armed with ""; both invariants hold |
| `Autocomplete.ListShown` | src/App.js:129 | the suggestion list is rendered exactly when the dropdown is visible and there are suggestions; it is never rendered together with "No suggestions found" |
| `Autocomplete.NoSuggestionsShown` | src/App.js:143 | "No suggestions found" is rendered exactly when the dropdown is visible, the user has typed and the list is empty; never without typing |
| `Autocomplete.RowHighlighted` | src/App.js:134 | row i carries the highlighted style exactly when the list is rendered and i is the highlighted index; a highlighted row is always a row of the list |
| `Autocomplete.WithQuery` | src/App.js:14-22 | setting the query to a new value re-arms the debounce timer with that value; the same value keeps the pending timer; the debounce invariant is kept |
| `Autocomplete.InputChanged` | src/App.js:57-60 | typing sets the query to the text and marks the user as having typed; apart from the timer, nothing else changes |
| `Autocomplete.InputFocused` | src/App.js:52-55 | focus opens the dropdown and clears "has typed"; nothing else changes; "No suggestions found" is then never shown, and the list is shown iff there are suggestions |
| `Autocomplete.SuggestionClicked` | src/App.js:46-50 | the query becomes the clicked meal's name, the dropdown closes and the index is -1; suggestions, debounced query, "has typed" and requests are unchanged |
| `Autocomplete.PressedArrowDown` | src/App.js:63-69 | only the index changes; it goes up by one iff below the last row; the range invariant is kept |
| `Autocomplete.PressedArrowUp` | src/App.js:70-76 | only the index changes; it goes down by one iff above 0; the range invariant is kept |
| `Autocomplete.PressedEnter` | src/App.js:77-81 | Enter on a row equals clicking that row; Enter at -1 changes nothing; Enter fails iff the index is at or past the end of the list |
| `Autocomplete.KeyDown` | src/App.js:62-83 | dispatches ArrowDown, ArrowUp and Enter to their transitions; any other key changes nothing; only Enter can fail |
| `Autocomplete.ClickedOutside` | src/App.js:96-107 | when the list is rendered and the target is in neither the list nor the input: query "", dropdown closed, index -1; apart from the timer, which is re-armed with "" when the query was not already "", nothing else changes; in every other case no change |
| `Autocomplete.DebouncedQueryEffect` | src/App.js:24-44 | empty debounced query: no suggestions and dropdown hidden, no request; otherwise dropdown shown and one request issued |
| `Autocomplete.TimerFired` | src/App.js:14-22 | the debounced query takes the committed value; an empty new value clears and hides without a request; a new non-empty value shows the dropdown and issues exactly one request; an unchanged value changes nothing else |
| `Autocomplete.ResponseArrived` | src/App.js:31-36 | the list is replaced by the response's list; the highlighted index and everything else are kept, so an in-range index stays in range iff it is below the new length |
| `AutocompleteProperties.PanelsExclusive` | src/App.js:129-145 | the suggestion list and the "No suggestions found" row are never rendered together |
| `AutocompleteProperties.AtMostOneRowHighlighted` | src/App.js:131-134 | at most one row is highlighted; an index outside the list highlights no row |
| `AutocompleteProperties.OutsideClickKeepsNoSuggestionsRow` | src/App.js:96-107 | an outside click leaves the state unchanged while only "No suggestions found" is shown |
| `AutocompleteProperties.BurstKeepsOneTimer` | src/App.js:14-22 | during a burst of keystrokes nothing is committed and no request is issued; the query is the last text and the invariant holds |
| `AutocompleteProperties.OnlyFinalTextIsFetched` | src/App.js:14-44 | after a burst, the firing timer commits only the burst's last text, and at most one request is issued, exactly when that text is new and non-empty |
| `AutocompleteProperties.NoSuggestionsRowLifetime` | src/App.js:24-60 | with "No suggestions found" shown: a focus hides it; a commit of a new query keeps it iff that query is non-empty; a response keeps it iff it brings no meals; no key changes it |
| `AutocompleteProperties.ClearingInputHidesDropdown` | src/App.js:40-43 | clearing the input after a non-empty commit leads to no suggestions, a hidden dropdown and no request |
| `AutocompleteProperties.Step` | src/App.js:46-107 | handling one event fails only for Enter with an index past the list; a row click is the selection of that row; the debounce invariant is kept |
| `AutocompleteProperties.RunAppend` | src/App.js:14-107 | running two event sequences in turn is running their concatenation |
| `AutocompleteProperties.RunKeepsDebounceConsistent` | src/App.js:14-22 | on every event sequence, a pending timer holds the current query, and with no timer pending the debounced query equals the query |
| `AutocompleteProperties.InitIsConsistent` | src/App.js:5-10 | right after mounting neither panel is rendered and no row is highlighted |
| `StaleIndex.ResponseArrivedBreaksRange` | src/App.js:32 | a response with a shorter list leaves the index past its end, and Enter then fails |
| `StaleIndex.EmptyCommitBreaksRange` | src/App.js:41 | committing the empty query empties the list but keeps the index, and Enter then fails |
| `StaleIndex.EnterThrowsAfterShorterResponse` | src/App.js:77-81 | a session from mount (focus, search, two rows, ArrowDown twice, refine to one match, Enter) makes the Enter handler throw |
| `StaleIndex.ResponseArrivedFixed` | src/App.js:32 | corrected response: differs from the code only in resetting the index to -1, so the index is always in range |
| `StaleIndex.TimerFiredFixed` | src/App.js:40-43 | corrected commit: differs from the code only in resetting the index when the list is emptied; keeps the index in range |
| `StaleIndex.StepFixed` | src/App.js:24-44 | the corrected component never fails on an event from an in-range state and keeps the index in range |
| `StaleIndex.FixedRunNeverThrows` | src/App.js:77-81 | with the correction, no event sequence makes a handler throw, and the index stays in range |
| `StaleIndex.FixedHandlesCrashingSession` | src/App.js:77-81 | the session that crashes the code as written runs without error once corrected |
| `Scenarios.SearchShowsTwoRows` | src/App.js:14-44 | typing "chick", the timer firing and a two-meal response render both rows with nothing highlighted |
| `Scenarios.ArrowDownThenEnterSelectsFirst` | src/App.js:62-81 | ArrowDown then highlights row 0; Enter sets the query to "Chicken Curry" and closes the dropdown |
| `Scenarios.NoMatchesShowsMessage` | src/App.js:32 | a response with null `meals` leaves no suggestions and shows "No suggestions found" |
| `Scenarios.ClearWithinDebounceKeepsMessage` | src/App.js:14-44 | focus, type "x", delete it, timer fires: the empty commit equals the committed query, so the dropdown stays visible and "No suggestions found" is shown with an empty query |
| `Scenarios.FailureLooksLikeNoMatches` | src/App.js:33-36 | a failed request ends in the same state as a search without matches |
| `Scenarios.OutsideClickResets` | src/App.js:96-107 | a mouse-down outside the open list clears the query, closes the dropdown and drops the highlight; once the re-armed timer fires, the list is empty too |
| `Scenarios.SelectionIsSearchedAgain` | src/App.js:46-50 | selecting a row changes the query, so after the debounce that meal name is searched and the dropdown reopens |
| `Widget.AutocompleteWidget.constructor` | src/App.js:5-10 | mounting gives the initial state, with the first timer armed with "" |
| `Widget.AutocompleteWidget.SetQuery` | src/App.js:14-22 | the in-place `setQuery` performs `WithQuery` |
| `Widget.AutocompleteWidget.HandleInputChange` | src/App.js:57-60 | performs `InputChanged` in place and keeps the debounce invariant |
| `Widget.AutocompleteWidget.HandleInputFocus` | src/App.js:52-55 | performs `InputFocused` in place |
| `Widget.AutocompleteWidget.HandleSuggestionClick` | src/App.js:46-50 | performs `SuggestionClicked` in place |
| `Widget.AutocompleteWidget.HandleKeyDown` | src/App.js:62-83 | performs `KeyDown` in place; when Enter fails it reports the error and leaves every field unchanged |
| `Widget.AutocompleteWidget.HandleClickOutside` | src/App.js:96-107 | performs `ClickedOutside` in place |
| `Widget.AutocompleteWidget.RunDebouncedQueryEffect` | src/App.js:24-44 | performs `DebouncedQueryEffect` in place and keeps the debounce invariant |
| `Widget.AutocompleteWidget.DebounceTimerFires` | src/App.js:14-22 | performs `TimerFired` in place |
| `Widget.AutocompleteWidget.FetchSettles` | src/App.js:31-36 | performs `ResponseArrived` in place |

## Findings

| source | as written | input that shows it | evidently intended | confidence | as-written member | corrected member |
|---|---|---|---|---|---|---|
| src/App.js:32 | a response replaces `suggestions` without resetting `highlightedIndex`, and Enter (src/App.js:80) indexes the list without a bound check | focus the input; type "chick"; two meals arrive; ArrowDown twice (index 1); type "chicken c"; one meal arrives; Enter reads `suggestions[1]`, which is undefined, and throws | reset the index to -1 whenever the list is replaced, so that Enter only ever selects an existing row | high (not executed) | `StaleIndex.EnterThrowsAfterShorterResponse` | `StaleIndex.FixedRunNeverThrows` |

The same stale index arises when the empty query is committed (src/App.js:41;
`StaleIndex.EmptyCommitBreaksRange`). The corrected step `StaleIndex.StepFixed` resets the
index at both places. The class `Widget.AutocompleteWidget` keeps the behaviour as written.

## Left out

- The HTTP request, URL construction, `response.json()` and `console.error` (src/App.js:26-37). These are foreign I/O. A request is a counter, and its result is a parameter of the response event.
- Wall-clock time. The 300 ms delay is not modelled; the timer firing is an explicit event, allowed whenever a timer is pending.
- Clearing the timer on unmount, and adding and removing the document listener (src/App.js:19-21, 109-114). Unmounting is not modelled.
- Scrolling the highlighted row into view (src/App.js:85-94) and `preventDefault`. They touch only the DOM, not the state.
- The `contains` checks on the two DOM elements. They are booleans given to the outside-click event.
- React's batching of state updates. Each handler is one atomic transition.
- Which request a response belongs to. Responses carry no query, so the out-of-order race is allowed but not analysed further.
- AutocompleteProperties.Run: an event that cannot occur in the current state (a click on a row that is not rendered, a timer firing when none is pending, a response with no request outstanding) is skipped instead of being reported.
