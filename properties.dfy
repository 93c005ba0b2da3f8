/** Properties of the autocomplete component that relate several events: the rendering
    guarantees, the debounce, and whole event sequences. */
module AutocompleteProperties {
  import opened Meals
  import opened Autocomplete

  // ---------------------------------------------------------------------------
  // Rendering

  /** The suggestion list and the "No suggestions found" row are never rendered together. */
  lemma PanelsExclusive(s: State)
    ensures !(ListShown(s) && NoSuggestionsShown(s))
  {
  }

  /** At most one row is highlighted, and an index outside the list highlights none. */
  lemma AtMostOneRowHighlighted(s: State, i: int, j: int)
    ensures RowHighlighted(s, i) && RowHighlighted(s, j) ==> i == j
    ensures !IndexInRange(s) ==> !RowHighlighted(s, i)
  {
  }

  /** An outside click changes nothing while only the "No suggestions found" row is open:
      the dropdown ref is attached to the suggestion list alone. */
  lemma OutsideClickKeepsNoSuggestionsRow(s: State, inInput: bool)
    requires NoSuggestionsShown(s)
    ensures ClickedOutside(s, false, inInput) == s
    ensures NoSuggestionsShown(ClickedOutside(s, false, inInput))
  {
  }

  /** What happens to the "No suggestions found" row: a focus hides it; a commit of a new
      non-empty query keeps it; a commit of a new empty query hides it; a response hides it
      exactly when it brings meals; no key changes it. */
  lemma NoSuggestionsRowLifetime(s: State, outcome: FetchOutcome)
    requires NoSuggestionsShown(s)
    ensures !NoSuggestionsShown(InputFocused(s))
    ensures s.pendingCommit.Some? && s.pendingCommit.value != s.debouncedQuery ==>
              (NoSuggestionsShown(TimerFired(s)) <==> s.pendingCommit.value != "")
    ensures s.inFlight > 0 ==>
              (NoSuggestionsShown(ResponseArrived(s, outcome)) <==> SuggestionsOf(outcome) == [])
    ensures forall key: Key :: KeyDown(s, key).Ok? ==> NoSuggestionsShown(KeyDown(s, key).value)
  {
  }

  // ---------------------------------------------------------------------------
  // Debounce

  /** The state after a burst of keystrokes with no timer firing in between. */
  function TypeBurst(s: State, texts: seq<string>): (r: State)
    decreases |texts|
  {
    if texts == [] then s else TypeBurst(InputChanged(s, texts[0]), texts[1..])
  }

  /** During a burst nothing is committed and nothing is fetched: the query is the last text,
      the debounced query, suggestions and requests are as before, and the one pending timer
      (if any) holds the last text. */
  lemma {:induction false} BurstKeepsOneTimer(s: State, texts: seq<string>)
    requires DebounceConsistent(s)
    requires |texts| > 0
    ensures var b := TypeBurst(s, texts);
      b.query == texts[|texts| - 1] && b.hasTyped &&
      b.debouncedQuery == s.debouncedQuery && b.suggestions == s.suggestions &&
      b.inFlight == s.inFlight && b.highlightedIndex == s.highlightedIndex &&
      b.isDropdownVisible == s.isDropdownVisible &&
      DebounceConsistent(b)
    decreases |texts|
  {
    var t := InputChanged(s, texts[0]);
    if |texts| > 1 {
      BurstKeepsOneTimer(t, texts[1..]);
    }
  }

  /** Only the final text of a burst reaches the debounced query, and at most one request
      is issued for the whole burst: one exactly when that text is non-empty and differs
      from what had been committed before. */
  lemma OnlyFinalTextIsFetched(s: State, texts: seq<string>)
    requires DebounceConsistent(s)
    requires |texts| > 0
    ensures var b := TypeBurst(s, texts);
      var last := texts[|texts| - 1];
      (b.pendingCommit.Some? ==>
         TimerFired(b).debouncedQuery == last &&
         TimerFired(b).inFlight == s.inFlight + (if last != s.debouncedQuery && last != "" then 1 else 0)) &&
      (b.pendingCommit.None? ==> b.debouncedQuery == last && b.inFlight == s.inFlight)
  {
    BurstKeepsOneTimer(s, texts);
  }

  /** Clearing the input once something was committed: the timer commits the empty query,
      which empties the suggestions and hides the dropdown without a request. */
  lemma ClearingInputHidesDropdown(s: State)
    requires DebounceConsistent(s)
    requires s.debouncedQuery != ""
    ensures var t := InputChanged(s, "");
      t.pendingCommit == Some("") &&
      TimerFired(t).suggestions == [] && !TimerFired(t).isDropdownVisible &&
      TimerFired(t).inFlight == s.inFlight &&
      !ListShown(TimerFired(t)) && !NoSuggestionsShown(TimerFired(t))
  {
  }

  // ---------------------------------------------------------------------------
  // Event sequences

  /** Everything that can happen to the component. `ClickedRow(i)` is a click on row `i`
      of the rendered list; `MouseDown` is a mouse-down anywhere, with whether its target
      lies in the list and in the input. */
  datatype Event =
    | Typed(text: string)
    | Focused
    | ClickedRow(row: nat)
    | KeyPressed(key: Key)
    | MouseDown(inDropdown: bool, inInput: bool)
    | TimerFires
    | Response(outcome: FetchOutcome)

  /** Whether the event can occur at all in state `s`: a row can be clicked only while it is
      rendered, the timer fires only when armed, a response comes only for an issued request. */
  predicate Enabled(s: State, e: Event)
  {
    match e
    case ClickedRow(i) => ListShown(s) && i < |s.suggestions|
    case MouseDown(inDropdown, _) => inDropdown ==> ListShown(s)
    case TimerFires => s.pendingCommit.Some?
    case Response(_) => s.inFlight > 0
    case _ => true
  }

  /** One event, as the component handles it. */
  function Step(s: State, e: Event): (r: Result<State>)
    requires Enabled(s, e)
    ensures r.Failure? <==> e == KeyPressed(Enter) && s.highlightedIndex >= |s.suggestions|
    ensures e.ClickedRow? ==> r == Ok(SuggestionClicked(s, s.suggestions[e.row].name))
    ensures DebounceConsistent(s) && r.Ok? ==> DebounceConsistent(r.value)
  {
    match e
    case Typed(text) => Ok(InputChanged(s, text))
    case Focused => Ok(InputFocused(s))
    case ClickedRow(i) => Ok(SuggestionClicked(s, s.suggestions[i].name))
    case KeyPressed(key) => KeyDown(s, key)
    case MouseDown(inDropdown, inInput) => Ok(ClickedOutside(s, inDropdown, inInput))
    case TimerFires => Ok(TimerFired(s))
    case Response(outcome) => Ok(ResponseArrived(s, outcome))
  }

  /** The end of an event sequence, and whether any handler threw on the way. */
  datatype Trace = Trace(state: State, threw: bool)

  /** Runs a sequence of events. An event that cannot occur in the current state does not
      happen; a handler that throws leaves the state as it was and the run goes on. */
  function Run(s: State, events: seq<Event>): (r: Trace)
    decreases |events|
  {
    if events == [] then Trace(s, false)
    else
      var next := if Enabled(s, events[0]) then Step(s, events[0]) else Ok(s);
      var rest := Run(if next.Ok? then next.value else s, events[1..]);
      Trace(rest.state, rest.threw || next.Failure?)
  }

  /** Running two sequences one after the other is running their concatenation. */
  lemma {:induction false} RunAppend(s: State, first: seq<Event>, second: seq<Event>)
    ensures Run(s, first + second)
         == Trace(Run(Run(s, first).state, second).state,
                  Run(s, first).threw || Run(Run(s, first).state, second).threw)
    decreases |first|
  {
    if first == [] {
      assert first + second == second;
    } else {
      assert (first + second)[1..] == first[1..] + second;
      var next := if Enabled(s, first[0]) then Step(s, first[0]) else Ok(s);
      RunAppend(if next.Ok? then next.value else s, first[1..], second);
    }
  }

  /** The debounce invariant holds in every state the component reaches from mounting. */
  lemma {:induction false} RunKeepsDebounceConsistent(s: State, events: seq<Event>)
    requires DebounceConsistent(s)
    ensures DebounceConsistent(Run(s, events).state)
    decreases |events|
  {
    if events != [] {
      var next := if Enabled(s, events[0]) then Step(s, events[0]) else Ok(s);
      RunKeepsDebounceConsistent(if next.Ok? then next.value else s, events[1..]);
    }
  }

  /** Right after mounting no panel is rendered and no row is highlighted. */
  lemma InitIsConsistent()
    ensures !ListShown(Init()) && !NoSuggestionsShown(Init())
    ensures forall i: int :: !RowHighlighted(Init(), i)
  {
  }
}
