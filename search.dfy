/**
 The decisions around the search box: when the debounced autocomplete asks
 the geocoder for suggestions and what the dropdown then shows, what a form
 submission does with the typed text and the current suggestions, and how a
 typed city is resolved to coordinates. Network requests are not made here:
 their outcomes are inputs.
 */
module Search {
  import opened JsText

  /** A geocoding candidate (`name`, `country`, `lat`, `lon`). */
  datatype Location = Location(name: string, country: string, lat: real, lon: real)

  /**
   The outcome of one request: `Ok` with the parsed body when the response
   was successful; `Err` when the response came back with a status that is
   not successful, which the code turns into its own error; `Rejected` when
   `fetch` or the JSON parsing threw, carrying the runtime's error message.
   */
  datatype Response<T> = Ok(value: T) | Err | Rejected(reason: string)

  /** The fewest UTF-16 units of trimmed text for which suggestions are fetched. */
  const MinQueryLength: nat := 3

  /** What the debounced callback does with the current text. */
  datatype Lookup = FetchSuggestions(query: string) | ClearSuggestions

  /** The dropdown state: the suggestion list and whether it is shown. */
  datatype Dropdown = Dropdown(suggestions: seq<Location>, show: bool)

  /** The dropdown is shown exactly when it has something to show. */
  predicate Coherent(d: Dropdown)
  {
    d.show <==> |d.suggestions| > 0
  }

  /**
   The decision the debounced callback makes once typing settles: fetch
   suggestions for the text as typed exactly when its trimmed form has at
   least three UTF-16 units, otherwise clear the list.
   */
  function OnSettledInput(city: string): (l: Lookup)
    ensures l.FetchSuggestions? <==> Utf16Length(Trim(city)) >= MinQueryLength
    ensures l.FetchSuggestions? ==> l.query == city && !AllSpace(city)
  {
    TrimBlank(city);
    if Utf16Length(Trim(city)) >= MinQueryLength then FetchSuggestions(city) else ClearSuggestions
  }

  /**
   The dropdown after the suggestion request completes: the returned list,
   shown when it is not empty; on failure an empty, hidden list.
   */
  function ReceiveSuggestions(r: Response<seq<Location>>): (d: Dropdown)
    ensures Coherent(d)
    ensures r.Ok? ==> d.suggestions == r.value
    ensures !r.Ok? ==> d == Dropdown([], false)
  {
    match r
    case Ok(data) => Dropdown(data, |data| > 0)
    case Err => Dropdown([], false)
    case Rejected(_) => Dropdown([], false)
  }

  /**
   The dropdown once a burst of typing has settled on `city`, where `r` is
   the answer the geocoder gives for `city` if it is asked.
   */
  function SettleSuggestions(city: string, r: Response<seq<Location>>): (d: Dropdown)
    ensures Coherent(d)
    ensures |d.suggestions| > 0 ==> r == Ok(d.suggestions) && Utf16Length(Trim(city)) >= MinQueryLength
    ensures OnSettledInput(city).ClearSuggestions? ==> d == Dropdown([], false)
    ensures Utf16Length(Trim(city)) >= MinQueryLength && r.Ok? ==> d == Dropdown(r.value, |r.value| > 0)
    ensures !r.Ok? ==> d == Dropdown([], false)
  {
    match OnSettledInput(city)
    case FetchSuggestions(_) => ReceiveSuggestions(r)
    case ClearSuggestions => Dropdown([], false)
  }

  /** Space typed around the text does not change whether suggestions are fetched. */
  lemma GatingIgnoresPadding(pre: string, city: string, post: string)
    requires AllSpace(pre) && AllSpace(post)
    ensures OnSettledInput(pre + city + post).FetchSuggestions? == OnSettledInput(city).FetchSuggestions?
  {
    TrimIgnoresPadding(pre, city, post);
  }

  /** Three characters after trimming always fetch; fewer than two never do. */
  lemma GatingByCharacters(city: string)
    ensures |Trim(city)| >= 3 ==> OnSettledInput(city).FetchSuggestions?
    ensures |Trim(city)| < 2 ==> OnSettledInput(city).ClearSuggestions?
  {
  }

  const EmptyCityError := "Por favor ingresa una ciudad"

  /** What submitting the search form does. */
  datatype SubmitAction =
    | ShowError(message: string)
    | LoadCoords(lat: real, lon: real)
    | GeocodeCity(name: string)

  /**
   A blank city is rejected with an error and nothing is fetched; otherwise
   the first suggestion's coordinates are loaded when there is a suggestion,
   and the typed text is geocoded when there is none.
   */
  function Submit(city: string, suggestions: seq<Location>): (a: SubmitAction)
    ensures a.ShowError? <==> AllSpace(city)
    ensures a.ShowError? ==> a.message == EmptyCityError
    ensures a.LoadCoords? <==> !AllSpace(city) && |suggestions| > 0
    ensures a.LoadCoords? ==> a.lat == suggestions[0].lat && a.lon == suggestions[0].lon
    ensures a.GeocodeCity? <==> !AllSpace(city) && suggestions == []
    ensures a.GeocodeCity? ==> a.name == city
  {
    TrimBlank(city);
    if Trim(city) == [] then ShowError(EmptyCityError)
    else if |suggestions| > 0 then LoadCoords(suggestions[0].lat, suggestions[0].lon)
    else GeocodeCity(city)
  }

  /**
   Submitting while the dropdown holds what the autocomplete settled on for
   the same text: a blank text is rejected, the first suggestion is used
   only when the trimmed text was long enough to be looked up and the
   lookup returned candidates, and otherwise the typed text is geocoded.
   */
  lemma SubmitAfterSettle(city: string, r: Response<seq<Location>>)
    ensures var a := Submit(city, SettleSuggestions(city, r).suggestions);
      && (a.ShowError? <==> AllSpace(city))
      && (a.LoadCoords? <==>
            !AllSpace(city) && Utf16Length(Trim(city)) >= MinQueryLength && r.Ok? && |r.value| > 0)
      && (a.LoadCoords? ==> a == LoadCoords(r.value[0].lat, r.value[0].lon))
      && (a.GeocodeCity? ==> a == GeocodeCity(city))
  {
  }

  const GeocodeFailedError := "Error: Error al buscar la ubicación"
  const CityNotFoundError := "Error: Ciudad no encontrada"

  /** The result of resolving a typed city to coordinates. */
  datatype Resolution = Resolved(lat: real, lon: real) | Failed(message: string)

  /**
   Resolving a typed city: an unsuccessful status and an empty candidate
   list are errors with their own messages, a thrown request or parse error
   shows the runtime's message; otherwise the first candidate's coordinates
   are used.
   */
  function ResolveTypedCity(r: Response<seq<Location>>): (res: Resolution)
    ensures res.Resolved? <==> r.Ok? && |r.value| > 0
    ensures res.Resolved? ==> res.lat == r.value[0].lat && res.lon == r.value[0].lon
    ensures r.Err? ==> res == Failed(GeocodeFailedError)
    ensures r == Ok([]) ==> res == Failed(CityNotFoundError)
    ensures r.Rejected? ==> res == Failed("Error: " + r.reason)
  {
    match r
    case Err => Failed(GeocodeFailedError)
    case Rejected(reason) => Failed("Error: " + reason)
    case Ok(data) => if |data| == 0 then Failed(CityNotFoundError) else Resolved(data[0].lat, data[0].lon)
  }
}
