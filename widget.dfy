/** The component as an object whose handlers update its state fields in place. Each handler
    is proved to perform the transition of the same name in module Autocomplete, and to keep
    the debounce invariant. */
module Widget {
  import opened Meals
  import opened Navigation
  import opened Autocomplete

  class AutocompleteWidget {
    var query: string
    var debouncedQuery: string
    var suggestions: seq<Meal>
    var isDropdownVisible: bool
    var hasTyped: bool
    var highlightedIndex: int
    /** The pending debounce timer and the query it will commit. */
    var pendingCommit: Option<string>
    /** Search requests issued and not yet answered. */
    var inFlight: nat

    /** The component's state as a value. */
    function Snapshot(): State
      reads this
    {
      State(query, debouncedQuery, suggestions, isDropdownVisible, hasTyped,
            highlightedIndex, pendingCommit, inFlight)
    }

    ghost predicate Valid()
      reads this
    {
      DebounceConsistent(Snapshot())
    }

    /** Mounting: initial field values, and the first debounce timer armed with "". */
    constructor ()
      ensures Valid() && Snapshot() == Init()
    {
      query := "";
      debouncedQuery := "";
      suggestions := [];
      isDropdownVisible := false;
      hasTyped := false;
      highlightedIndex := -1;
      pendingCommit := Some("");
      inFlight := 0;
    }

    /** `setQuery(v)`; a changed value re-arms the debounce timer. */
    method SetQuery(v: string)
      requires Valid()
      modifies this
      ensures Valid() && Snapshot() == WithQuery(old(Snapshot()), v)
    {
      if v != query {
        pendingCommit := Some(v);
      }
      query := v;
    }

    method HandleInputChange(text: string)
      requires Valid()
      modifies this
      ensures Valid() && Snapshot() == InputChanged(old(Snapshot()), text)
    {
      SetQuery(text);
      hasTyped := true;
    }

    method HandleInputFocus()
      requires Valid()
      modifies this
      ensures Valid() && Snapshot() == InputFocused(old(Snapshot()))
    {
      isDropdownVisible := true;
      hasTyped := false;
    }

    method HandleSuggestionClick(name: string)
      requires Valid()
      modifies this
      ensures Valid() && Snapshot() == SuggestionClicked(old(Snapshot()), name)
    {
      SetQuery(name);
      isDropdownVisible := false;
      highlightedIndex := -1;
    }

    /** The keyboard handler. `error` is set when Enter reads a suggestion that is not there;
        the state is then left as it was. */
    method HandleKeyDown(key: Key) returns (error: Option<HandlerError>)
      requires Valid()
      modifies this
      ensures Valid()
      ensures KeyDown(old(Snapshot()), key).Ok? ==>
                error == None && Snapshot() == KeyDown(old(Snapshot()), key).value
      ensures KeyDown(old(Snapshot()), key).Failure? ==>
                error == Some(KeyDown(old(Snapshot()), key).error) && Snapshot() == old(Snapshot())
    {
      error := None;
      match key
      case ArrowDown =>
        highlightedIndex := NextIndex(highlightedIndex, |suggestions|);
      case ArrowUp =>
        highlightedIndex := PrevIndex(highlightedIndex);
      case Enter =>
        if highlightedIndex >= 0 {
          if highlightedIndex < |suggestions| {
            HandleSuggestionClick(suggestions[highlightedIndex].name);
          } else {
            error := Some(UndefinedSuggestion(highlightedIndex, |suggestions|));
          }
        }
      case OtherKey =>
    }

    /** The document-level mouse-down listener. */
    method HandleClickOutside(inDropdown: bool, inInput: bool)
      requires Valid()
      modifies this
      ensures Valid() && Snapshot() == ClickedOutside(old(Snapshot()), inDropdown, inInput)
    {
      var dropdownMounted := isDropdownVisible && |suggestions| > 0;
      if dropdownMounted && !inDropdown && !inInput {
        SetQuery("");
        isDropdownVisible := false;
        highlightedIndex := -1;
      }
    }

    /** The effect on a changed debounced query. */
    method RunDebouncedQueryEffect()
      requires Valid()
      modifies this
      ensures Valid() && Snapshot() == DebouncedQueryEffect(old(Snapshot()))
    {
      if debouncedQuery != "" {
        inFlight := inFlight + 1;
        isDropdownVisible := true;
      } else {
        suggestions := [];
        isDropdownVisible := false;
      }
    }

    /** The pending debounce timer fires. */
    method DebounceTimerFires()
      requires Valid() && pendingCommit.Some?
      modifies this
      ensures Valid() && Snapshot() == TimerFired(old(Snapshot()))
    {
      var committed := pendingCommit.value;
      pendingCommit := None;
      if committed != debouncedQuery {
        debouncedQuery := committed;
        RunDebouncedQueryEffect();
      }
    }

    /** One issued request settles with `outcome`. */
    method FetchSettles(outcome: FetchOutcome)
      requires Valid() && inFlight > 0
      modifies this
      ensures Valid() && Snapshot() == ResponseArrived(old(Snapshot()), outcome)
    {
      suggestions := SuggestionsOf(outcome);
      inFlight := inFlight - 1;
    }
  }
}
