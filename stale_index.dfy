/** The highlighted index is not reset when the suggestion list is replaced, so it can point
    past the end of the list, and Enter then reads an undefined suggestion. This module shows
    the failure on a run from mounting, and proves that resetting the index whenever the list
    is replaced keeps it in range for every run. */
module StaleIndex {
  import opened Meals
  import opened Autocomplete
  import opened AutocompleteProperties
  import opened Scenarios

  /** A response that shortens the list leaves the index dangling. */
  lemma ResponseArrivedBreaksRange()
    ensures var s := State("chick", "chick", [Curry, Soup], true, true, 1, None, 1);
      IndexInRange(s) &&
      !IndexInRange(ResponseArrived(s, Found([Curry]))) &&
      PressedEnter(ResponseArrived(s, Found([Curry]))).Failure?
  {
  }

  /** Committing the empty query empties the list and also leaves the index dangling. */
  lemma EmptyCommitBreaksRange()
    ensures var s := State("", "chick", [Curry, Soup], true, true, 0, Some(""), 0);
      DebounceConsistent(s) && IndexInRange(s) &&
      !IndexInRange(TimerFired(s)) &&
      PressedEnter(TimerFired(s)).Failure?
  {
  }

  /** The first half of a session: focus the input, search "chick", get two meals, ArrowDown. */
  function SearchAndHighlight(): (r: seq<Event>)
  {
    [Focused, Typed("chick"), TimerFires, Response(Found([Curry, Soup])), KeyPressed(ArrowDown)]
  }

  /** The second half: ArrowDown to the second row, refine the search to one match, Enter. */
  function RefineAndEnter(): (r: seq<Event>)
  {
    [KeyPressed(ArrowDown), Typed("chicken c"), TimerFires, Response(Found([Curry])), KeyPressed(Enter)]
  }

  /** The events of a session that ends with Enter throwing. */
  function CrashingSession(): (r: seq<Event>)
  {
    SearchAndHighlight() + RefineAndEnter()
  }

  /** The state after the first half: two meals listed, row 0 highlighted. */
  function FirstRowHighlighted(): (r: State)
  {
    State("chick", "chick", [Curry, Soup], true, true, 0, None, 0)
  }

  /** The first half runs without a throw and ends with row 0 highlighted. */
  lemma CrashingSessionStart()
    ensures Run(Init(), SearchAndHighlight()) == Trace(FirstRowHighlighted(), false)
  {
    var es := SearchAndHighlight();
    var s1 := InputFocused(Init());
    var s2 := InputChanged(s1, "chick");
    var s3 := TimerFired(s2);
    var s4 := ResponseArrived(s3, Found([Curry, Soup]));
    assert PressedArrowDown(s4) == FirstRowHighlighted();
    assert Run(s4, es[4..]) == Trace(FirstRowHighlighted(), false);
    assert Run(s3, es[3..]) == Run(s4, es[4..]);
    assert Run(s2, es[2..]) == Run(s3, es[3..]);
    assert Run(s1, es[1..]) == Run(s2, es[2..]);
  }

  /** The second half, from row 0 of two meals, ends with the Enter handler throwing. */
  lemma CrashingSessionEnd()
    ensures Run(FirstRowHighlighted(), RefineAndEnter()).threw
  {
    var es := RefineAndEnter();
    var s5 := PressedArrowDown(FirstRowHighlighted());
    var s6 := InputChanged(s5, "chicken c");
    var s7 := TimerFired(s6);
    var s8 := ResponseArrived(s7, Found([Curry]));
    assert s8.highlightedIndex == 1 && |s8.suggestions| == 1;
    assert Run(s8, es[4..]).threw;
    assert Run(s7, es[3..]).threw == Run(s8, es[4..]).threw;
    assert Run(s6, es[2..]).threw == Run(s7, es[3..]).threw;
    assert Run(s5, es[1..]).threw == Run(s6, es[2..]).threw;
  }

  /** From mounting, the session above makes the Enter handler throw. */
  lemma EnterThrowsAfterShorterResponse()
    ensures Run(Init(), CrashingSession()).threw
  {
    CrashingSessionStart();
    CrashingSessionEnd();
    RunAppend(Init(), SearchAndHighlight(), RefineAndEnter());
  }

  // ---------------------------------------------------------------------------
  // The corrected component: the index is reset whenever the list is replaced.

  /** A response that also resets the highlighted index. */
  function ResponseArrivedFixed(s: State, outcome: FetchOutcome): (r: State)
    requires s.inFlight > 0
    ensures r.suggestions == SuggestionsOf(outcome) && r.highlightedIndex == -1
    ensures r.(highlightedIndex := s.highlightedIndex) == ResponseArrived(s, outcome)
    ensures IndexInRange(r)
  {
    ResponseArrived(s, outcome).(highlightedIndex := -1)
  }

  /** A timer firing that resets the highlighted index when the effect empties the list. */
  function TimerFiredFixed(s: State): (r: State)
    requires s.pendingCommit.Some?
    ensures IndexInRange(s) ==> IndexInRange(r)
    ensures r.(highlightedIndex := s.highlightedIndex) == TimerFired(s)
  {
    var t := TimerFired(s);
    if s.pendingCommit.value != s.debouncedQuery && s.pendingCommit.value == "" then
      t.(highlightedIndex := -1)
    else t
  }

  /** One event handled by the corrected component. */
  function StepFixed(s: State, e: Event): (r: Result<State>)
    requires Enabled(s, e)
    ensures IndexInRange(s) ==> r.Ok? && IndexInRange(r.value)
    ensures DebounceConsistent(s) && r.Ok? ==> DebounceConsistent(r.value)
    ensures !e.TimerFires? && !e.Response? ==> r == Step(s, e)
  {
    match e
    case TimerFires => Ok(TimerFiredFixed(s))
    case Response(outcome) => Ok(ResponseArrivedFixed(s, outcome))
    case _ => Step(s, e)
  }

  /** `Run` for the corrected component. */
  function RunFixed(s: State, events: seq<Event>): (r: Trace)
    decreases |events|
  {
    if events == [] then Trace(s, false)
    else
      var next := if Enabled(s, events[0]) then StepFixed(s, events[0]) else Ok(s);
      var rest := RunFixed(if next.Ok? then next.value else s, events[1..]);
      Trace(rest.state, rest.threw || next.Failure?)
  }

  /** In the corrected component the index stays in range on every run, so Enter never throws. */
  lemma {:induction false} FixedRunNeverThrows(s: State, events: seq<Event>)
    requires IndexInRange(s)
    ensures !RunFixed(s, events).threw && IndexInRange(RunFixed(s, events).state)
    decreases |events|
  {
    if events != [] {
      var next := if Enabled(s, events[0]) then StepFixed(s, events[0]) else Ok(s);
      FixedRunNeverThrows(next.value, events[1..]);
    }
  }

  /** The same session that makes the component as written throw is handled without error. */
  lemma FixedHandlesCrashingSession()
    ensures !RunFixed(Init(), CrashingSession()).threw
  {
    FixedRunNeverThrows(Init(), CrashingSession());
  }
}
