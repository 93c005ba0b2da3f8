/** Suggestions as the meal search endpoint delivers them, and the outcome of one fetch. */
module Meals {

  /** One row of the search response: the API's `idMeal` and `strMeal` fields. */
  datatype Meal = Meal(id: string, name: string)

  /** What a finished request hands back to the widget: a list of meals, a response whose
      `meals` field is null (no match), or a failure (transport error, body that is not JSON). */
  datatype FetchOutcome = Found(meals: seq<Meal>) | NoMatches | FetchFailed

  /** The list the widget stores after a request settles (`data.meals || []`, or `[]` in the catch branch). */
  function SuggestionsOf(outcome: FetchOutcome): (r: seq<Meal>)
    ensures outcome.Found? ==> r == outcome.meals
    ensures !outcome.Found? ==> r == []
    ensures |r| > 0 ==> outcome.Found?
  {
    match outcome
    case Found(meals) => meals
    case NoMatches => []
    case FetchFailed => []
  }
}
