# onMoveWeather forecast core in Dafny

A model of the logic in the weather client `src/Weather.jsx` that is more
than display code:

- **Forecast aggregation** (`fetchWeatherByCoords`, the block after the
  forecast response is parsed). The flat feed of 3-hourly samples becomes
  two things. The first is the hourly window: the first eight samples.
  The second is a table of per-day records keyed by calendar date, filled
  by one pass over the feed. An unseen date gets a fresh record. A seen
  date has its record updated in place: the lowest and highest
  temperature, the condition of smallest id (strict `<`, so the earliest
  sample wins a tie) and the highest precipitation probability. The time
  stamp and wind speed stay those of the date's first sample. The exposed
  daily forecast is that table in key insertion order, without its first
  record, keeping at most three.
- **Suggestion gating** (the debounced effect and `fetchCitySuggestions`).
  Suggestions are requested only when the trimmed text has at least three
  UTF-16 units. The request sends the text as typed. The dropdown is shown
  exactly when the answer is a non-empty list. A failed request clears and
  hides it.
- **Form submission** (`handleSubmit`, and the decision made in
  `searchCityAndFetchWeather`). A blank text gives the error "Por favor
  ingresa una ciudad" and nothing is fetched. Otherwise the first
  suggestion's coordinates are loaded when there is one. Otherwise the
  typed text is geocoded. An unsuccessful status, an empty answer and a
  thrown request or parse error each become their own error message.

Files:

- `forecast.dfy`
  - Module `Forecast` holds the data model and a pure specification of
    the grouping (`Days`, `DailyForecast`). It also holds the imperative
    fold as the source runs it (`GroupByDate`, a loop over a `map` plus an
    insertion-order key sequence, and `Aggregate`), proved equal to that
    specification.
  - Module `ForecastProperties` proves what the specification means: one
    record per date, order of first appearance, the per-day min/max/
    condition/precipitation/first-sample facts, and the shape of the
    exposed list.
- `text.dfy` (module `JsText`): `String.prototype.trim`, using the
  ECMAScript WhiteSpace and LineTerminator set, and `String.prototype.length`
  in UTF-16 code units.
- `search.dfy` (module `Search`): the gating, dropdown, submission and
  geocoding decisions. Network answers are inputs: `Response.Ok` for a parsed body, `Err` for an
  unsuccessful status, `Rejected` for a thrown request or parse error.

Two points of the code are worth stating, because a reader could expect
otherwise:

- A day's wind speed is its first sample's (`src/Weather.jsx` line 127;
  lines 129-141 never update it), not that of the sample whose condition is kept.
- The daily records follow each date's first appearance in the feed
  (`Object.values` insertion order). This need not be a sort by date.

## Model

| member | source | states |
|---|---|---|
| Forecast.Slice | src/Weather.jsx:144 | `Array.prototype.slice(start, end)` for non-negative bounds: its length is `min(end, n) - start` clamped at 0, and element i is element `start + i` of the input |
| Forecast.HourlyWindow | src/Weather.jsx:109 | the hourly window holds exactly the first `min(8, n)` samples, in order and unmodified |
| Forecast.Positions | src/Weather.jsx:115-118 | the positions of a date key in the feed: all of them, increasing, and non-empty exactly when the key occurs |
| Forecast.FirstIndex | src/Weather.jsx:118-119 | the position of the first sample of a date: it carries that date, and no earlier sample does |
| Forecast.Distinct | src/Weather.jsx:118-119 | the insertion order of the date keys: each key of the feed exactly once, and nothing else (its first-appearance order is `DistinctOrder`) |
| Forecast.Minimum | src/Weather.jsx:121-132 | the running minimum temperature is one of the values and no value is lower |
| Forecast.Maximum | src/Weather.jsx:121-140 | the running maximum (temperature, `pop`) is one of the values and no value is higher |
| Forecast.Dominant | src/Weather.jsx:125-137 | the kept condition has the smallest id of the date's samples, and every earlier sample has a strictly larger id (ties keep the earliest) |
| Forecast.GroupByDate | src/Weather.jsx:113-142 | the loop ends with a table whose keys are exactly the feed's dates, in insertion order of first appearance, and whose record for every date is the fold of exactly that date's samples |
| Forecast.TableIsDays | src/Weather.jsx:144 | the table read with `Object.values` in insertion order is the grouped specification `Days` |
| Forecast.Summarize | src/Weather.jsx:119-141 | one date's record: `dt` and wind speed of the date's first sample, and a temperature range, `pop` and condition id that bound every sample of the date, with `min <= max` |
| Forecast.Days | src/Weather.jsx:113-142 | the grouped table: one record per distinct date key, and empty exactly when the feed is |
| Forecast.Values | src/Weather.jsx:144 | `Object.values` in insertion order: record j is the record of the j-th inserted key, one per key, so every inserted key's record is among them |
| Forecast.DailyForecast | src/Weather.jsx:144 | the exposed list: records 1..3 of the grouped table, `min(3, max(0, n - 1))` of them for n records |
| Forecast.Aggregate | src/Weather.jsx:108-144 | the forecast block yields the hourly window and the daily forecast that the specification defines |
| Forecast.DistinctSnoc | src/Weather.jsx:118-119 | one more sample appends its date to the insertion order exactly when the date is new |
| Forecast.GroupedNew | src/Weather.jsx:118-128 | a sample of an unseen date inserts the fresh record built from it and appends its key to the insertion order, and the table stays grouped |
| Forecast.GroupedNext | src/Weather.jsx:129-141 | a sample of a seen date replaces that date's record by the four conditional updates, leaves the key order alone, and the table stays grouped |
| Forecast.GroupedPut | src/Weather.jsx:115-142 | storing the current sample's date record keeps every other date's record a correct fold of the longer feed |
| Forecast.OtherDaySnoc | src/Weather.jsx:115-142 | one more sample leaves the record of every other date a correct fold |
| Forecast.FirstSampleOfDay | src/Weather.jsx:118-128 | a sample of a new date folds to the fresh record built from that sample alone |
| Forecast.NextSampleOfDay | src/Weather.jsx:129-141 | the four in-place updates of a seen date's record give the fold of its samples with the new one appended; time and wind stay |
| Forecast.SummarizeSnoc | src/Weather.jsx:129-141 | extending a date's samples by one changes min, max, condition and `pop` only by the strict comparisons of the update, and keeps `dt` and wind speed |
| Forecast.MinimumSnoc | src/Weather.jsx:131 | the minimum of a longer list is the new value exactly when it is strictly lower |
| Forecast.MaximumSnoc | src/Weather.jsx:131-140 | the maximum of a longer list is the new value exactly when it is strictly higher |
| Forecast.DominantSnoc | src/Weather.jsx:135-137 | the dominant sample moves to the new one exactly when its id is strictly smaller |
| Forecast.DominantUnique | src/Weather.jsx:135-137 | the earliest smallest-id sample is the only position with the dominance property |
| Forecast.DaySamplesSnoc | src/Weather.jsx:115-142 | a date's samples in a feed extended by one are its old samples plus the new one when it has that date |
| Forecast.KeysSnoc | src/Weather.jsx:116 | the date keys of an extended feed are the old keys plus the new sample's key |
| ForecastProperties.DayDates | src/Weather.jsx:118-120 | record j of the table is stamped with the j-th distinct date |
| ForecastProperties.DaysGroupedByFirstAppearance | src/Weather.jsx:113-144 | one record per distinct date: as many records as dates, every date covered, each record the summary of its own date's samples, records ordered by first appearance of their dates, and the first record stamped with the feed's first sample |
| ForecastProperties.DaysCoverDates | src/Weather.jsx:118-119 | every date of the feed has a record |
| ForecastProperties.FirstSampleOfDate | src/Weather.jsx:118-128 | a date's first sample in the feed is the first of its grouped samples |
| ForecastProperties.DistinctHead | src/Weather.jsx:118-119 | the first key in insertion order is the first sample's date |
| ForecastProperties.DistinctOrder | src/Weather.jsx:118-119 | keys in insertion order have strictly increasing first positions |
| ForecastProperties.FirstIndexSnoc | src/Weather.jsx:118-119 | appending a sample does not move the first position of a date already present |
| ForecastProperties.DateTemperatureRange | src/Weather.jsx:121-132 | for every date, `temp.min` is the lowest and `temp.max` the highest temperature of its samples, both attained, so `min <= max` |
| ForecastProperties.DatePrecipitation | src/Weather.jsx:126-140 | for every date, `pop` is the highest precipitation probability of its samples and is attained |
| ForecastProperties.DateCondition | src/Weather.jsx:125-137 | for every date, the condition is that of one of its samples, no sample of the date has a smaller id, and every earlier sample of the date has a strictly larger id |
| ForecastProperties.DateConditionLowest | src/Weather.jsx:135-137 | no sample of the date has a smaller condition id than the record's |
| ForecastProperties.DateConditionEarliest | src/Weather.jsx:135-137 | the dominant sample of a date is a sample of that date in the feed, and every earlier sample of the date has a strictly larger id |
| ForecastProperties.DateFirstSample | src/Weather.jsx:120-127 | for every date, `dt` and `wind_speed` are those of the date's first sample in the feed |
| ForecastProperties.DailyForecastShape | src/Weather.jsx:144 | the daily list is table records 1..3: `min(3, max(0, D - 1))` of them for D dates, never the first sample's date, and no date twice |
| ForecastProperties.DailyOmitsFirstDate | src/Weather.jsx:144 | no daily record is for the date of the feed's first sample |
| ForecastProperties.DailyDatesDistinct | src/Weather.jsx:144 | the daily records are for pairwise distinct dates |
| ForecastProperties.SliceKeepsDistinctDates | src/Weather.jsx:144 | records stamped with pairwise distinct dates stay so after `slice(1, 4)` |
| ForecastProperties.TwoDateFeed | src/Weather.jsx:108-144 | sixteen samples over two dates, eight each: the hourly window is the first date's samples and the daily list is the single record of the second date, stamped with its first sample |
| ForecastProperties.TwoDates | src/Weather.jsx:116 | such a feed has exactly its two dates |
| ForecastProperties.SecondDateStartsAtEight | src/Weather.jsx:118 | in such a feed the second date first appears at sample eight |
| JsText.LeadingSpace | src/Weather.jsx:49 | the length of the longest all-space prefix |
| JsText.TrailingSpace | src/Weather.jsx:49 | the length of the longest all-space suffix |
| JsText.Trim | src/Weather.jsx:49 | `trim` keeps the contiguous middle of the text that lies after the leading space, with only space after it and no space at either of its ends |
| JsText.Utf16Length | src/Weather.jsx:49 | `length` counts UTF-16 units: between n and 2n for n code points, and equal to n exactly when no code point is above U+FFFF |
| JsText.TrimBlank | src/Weather.jsx:164 | a text trims to the empty string exactly when it is all space |
| JsText.TrimUnique | src/Weather.jsx:49 | whatever sits between all-space padding and has no space at its ends is what `trim` returns |
| JsText.TrimIgnoresPadding | src/Weather.jsx:49 | space added at either end does not change the result of `trim` |
| JsText.TrimIdempotent | src/Weather.jsx:49 | trimming twice is trimming once |
| Search.OnSettledInput | src/Weather.jsx:49-54 | suggestions are fetched exactly when the trimmed text has at least 3 UTF-16 units; the request carries the untrimmed text, which is never blank |
| Search.ReceiveSuggestions | src/Weather.jsx:66-76 | a successful answer becomes the list, shown exactly when non-empty; an unsuccessful status or a thrown request or parse error gives an empty, hidden list |
| Search.SettleSuggestions | src/Weather.jsx:49-76 | after typing settles, a long enough text with a successful lookup shows exactly the returned list (shown iff non-empty); a short text or a failed lookup gives an empty, hidden list; suggestions are present only when both hold |
| Search.GatingIgnoresPadding | src/Weather.jsx:49 | space typed around the text never changes whether suggestions are fetched |
| Search.GatingByCharacters | src/Weather.jsx:49 | three code points after trimming always fetch; fewer than two never do |
| Search.Submit | src/Weather.jsx:161-175 | blank text gives the error "Por favor ingresa una ciudad" and nothing else; otherwise the first suggestion's coordinates exactly when there are suggestions; otherwise geocoding of the typed text |
| Search.SubmitAfterSettle | src/Weather.jsx:49-175 | submitting over the settled dropdown uses the first returned candidate exactly when the text is not blank, was long enough and the lookup returned candidates; otherwise geocodes the typed text or rejects a blank one |
| Search.ResolveTypedCity | src/Weather.jsx:183-200 | an unsuccessful status gives "Error: Error al buscar la ubicación", an empty answer "Error: Ciudad no encontrada", a thrown request or parse error "Error: " followed by its message; otherwise the first candidate's coordinates, exactly when there is one |

## Left out

- Rendering, dark mode and the `document.body` class changes: display only.
- The `fetch` calls, the URLs, JSON parsing and `navigator.geolocation`: I/O. Their outcomes are the `Response` inputs and the feed passed to `Aggregate`.
- The 300 ms debounce timer and its cancellation: timing. The model takes the text on which typing settled. A stale answer arriving after a newer one is not modelled, because the source has no ordering between answers.
- `toLocaleDateString`: time-zone and locale dependent. It is the parameter `dateOf`, assumed deterministic, and is taken never to yield an integer-like key or an `Object.prototype` name. Those would change `Object.values` order or the `!days[date]` test.
- Forecast.Sample: only `weather[0]` of each sample is kept; the rest of the array is never read by the aggregation. The feed's `weather` array is taken to be non-empty: an empty one would make the loop throw when a later sample of that date reads `.id`, which the model does not express. The geocoder's `state` field is not kept in `Search.Location`.
- Forecast.Sample: temperatures, `pop` and wind speed are `real`. IEEE doubles are not modelled (NaN, where every comparison is false, would leave a running value unchanged). Ids are unbounded integers.
- JsText: a JavaScript string is a sequence of UTF-16 code units and may hold lone surrogates; a Dafny `string` holds only Unicode scalar values, so `Trim` and `Utf16Length` cover well-formed text only.
- `Math.round` and the `* 3.6` unit conversion: display formatting.
- React state-setter sequencing: `setWeather` before the forecast request, `setLoading`, `setCity`, and the `'Error: ' + message` path of `fetchWeatherByCoords` when its requests fail. These are orchestration across asynchronous calls.
- `handleSelectCity` (lines 155-159): it sets the text to the suggestion's name, hides the dropdown without clearing its list, and forwards the coordinates to `fetchWeatherByCoords`; it makes no decision of its own. The model does not track the dropdown and typed text across such a selection.
