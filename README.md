# React-Map field search, modelled in Dafny

This project models the logic core of React-Map, a map application that
finds football fields near a point and shows the weather there. The model
covers four parts of the source:

- **`getFootballFields`** in `src/services/api.ts`. This is a cascade of four
  searches against the Foursquare places service:
  1. a category search with the plain key;
  2. the same search with a `Bearer` key;
  3. a text search over five terms, which stops early once more than ten
     records are gathered, then de-duplicates them with a JavaScript `Map`;
  4. a broad sports-category search, filtered by name keywords.

  The first search that finds something decides the result. The module also
  covers the normalisation of raw places into field records (id, address,
  price, surface, lighting) and the result shaping of `geocodeCity` and
  `getCityFromCoordinates`.
- **The recent-search history** of `src/components/SearchBar.tsx`. It is a
  most-recently-used list of at most five cities, with the trim guard of the
  search form.
- **The map-marker list** of `src/App.tsx`. `updateMarkers` replaces the
  marker of one kind. The football update replaces every marker with one per
  field and keeps the first weather marker. The field-search routine also has
  a missing-key branch and an empty-result branch.
- **The icon helpers** of `src/components/WeatherDisplay.tsx`. One maps a
  condition code to a CSS class. The other prefixes protocol-relative icon
  URLs.

Every network call is an input, not an effect:

- A places search is a `Reply` that either failed (`Fail`) or answered with
  its `results` (`Ok`).
- `getFootballFields` takes one reply per request it could issue.
- It returns the requests it actually issued, so the model can state which
  strategies ran.

The Foursquare key is an input too. It is an `Option<string>`, which models
`undefined` and the empty string.

JavaScript's `||` on strings is modelled as truthiness: the value counts only
when it is present and not empty. A `Map` keeps a key at the position where
it was first set and the value it was last set to.

Modules:

| file | module | what it holds |
|---|---|---|
| `wrappers.dfy` | `Wrappers` | `Option`, `Result`, `Reply` |
| `text.dfy` | `Text` | truthiness, `toLowerCase`, `includes`, `trim`, decimal digits |
| `seqs.dfy` | `Seqs` | `filter` and `find` |
| `places.dfy` | `Places` | raw places, field records, the normalisers |
| `dedup.dfy` | `Dedup` | the de-duplication of strategy 3 |
| `field_search.dfy` | `FieldSearch` | the four strategies, the term loop, the keyword filter |
| `geocoding.dfy` | `Geocoding` | forward and reverse geocoding |
| `search_bar.dfy` | `SearchBar` | the recent-search list and its component state |
| `map_markers.dfy` | `MapMarkers` | marker updates and the field-search state of `App` |
| `weather_display.dfy` | `WeatherDisplay` | the icon class and icon URL |

Three facts about the code that a reader might not expect:

- **Only strategy 3 de-duplicates.** Strategies 1 and 2 return the upstream
  list as it came, and strategy 4 returns the keyword-filtered upstream list
  (src/services/api.ts:240-247). So these strategies can return two fields
  with the same id (`FieldSearch.CategorySearchKeepsDuplicateIds`). After
  strategy 3's de-duplication the ids are unique, provided no upstream id
  itself looks like `field-N` (`FieldSearch.DeduplicatedIdsUnique`).
- **The `Map` keeps the first position but the last record.** A key stays
  where it was first inserted, bound to the last record that carried it
  (`Dedup.DedupKeepsLast`, `Dedup.DedupFirstOccurrenceOrder`).
- **The labels are the code's Spanish strings.** Prices read 'Económico',
  'Precio moderado', 'Precio elevado', 'Precio muy elevado' or 'Consultar';
  an unknown surface reads 'No especificado'.

## Model

| member | source | states |
|---|---|---|
| `Places.PricePerHourTable` | src/services/api.ts:297-308 | a price object with tier 1 to 4 gets that tier's label; any other price, and a missing one, gets 'Consultar' |
| `Places.PriceLabelRoundTrip` | src/services/api.ts:297-308 | the label gives back the tier that produced it; 'Consultar' names no tier |
| `Places.ScanCategoriesFirstMatch` | src/services/api.ts:314-324 | the category loop returns the verdict of the first category with one; it returns nothing exactly when no category has a verdict |
| `Places.FieldSurfaceType` | src/services/api.ts:313-335 | the surface is always one of 'Artificial Turf', 'Natural Grass' or 'No especificado' |
| `Places.SurfacePrecedence` | src/services/api.ts:313-335 | the first category whose name mentions turf/artificial or grass/natural decides; when no category does (or there are none), a name with turf/artificial/synthetic is 'Artificial Turf', else one with grass/natural is 'Natural Grass', else 'No especificado' |
| `Places.SyntheticOnlyInName` | src/services/api.ts:314-329 | "synthetic" in the place name means artificial turf when there are no categories or none of them mentions a surface |
| `Places.LightingKeywords` | src/services/api.ts:340-343 | lighting holds exactly when the lower-cased name contains "light", "iluminado" or "nocturno"; the "lighted" test is subsumed |
| `Places.MapFields` | src/services/api.ts:269-293 | one record per place, in the same order |
| `Places.MapFieldsPointwise` | src/services/api.ts:269-293 | each record's id is the upstream id or `field-<position+1>`; name, address and postcode are the place's or their defaults; city is locality, else region, else the default; one feature per category, named by it or 'Característica'; indoor exactly when `indoor === true`; lighting exactly for the three keywords; the price is the tier's label for tiers 1–4, else 'Consultar'; the surface is `getFieldSurfaceType` of the place; latitude and longitude are the place's, or the search point's when missing or 0 |
| `Places.MapFieldsPopulated` | src/services/api.ts:269-293 | no text property of a record is empty, feature names included |
| `Dedup.DedupeByKey` | src/services/api.ts:207-210 | building the map entry by entry and reading its values gives the map's contents: keys in first-insertion order, each bound to its last record |
| `Dedup.DedupLength` | src/services/api.ts:207-214 | never longer than the input; empty exactly when the input is |
| `Dedup.DedupOnePerKey` | src/services/api.ts:208-210 | the output keys are pairwise distinct and are exactly the input keys |
| `Dedup.DedupKeepsLast` | src/services/api.ts:208-210 | the record kept for a key is the last input record with that key |
| `Dedup.DedupFirstOccurrenceOrder` | src/services/api.ts:208-210 | output order is first-occurrence order of the keys |
| `Dedup.KeylessRecordsCollapse` | src/services/api.ts:209-209 | two records with neither `fsq_id` nor `id` share the key `undefined` and collapse into the later one |
| `FieldSearch.TermsQueriedFrom` | src/services/api.ts:180-204 | the loop queries terms until the gathered count first exceeds ten, or until the terms run out |
| `FieldSearch.TermsQueriedEarlyExit` | src/services/api.ts:196-201 | the queried terms are a prefix; every earlier prefix gathered at most ten records; stopping early means more than ten were gathered; at least one term is queried |
| `FieldSearch.GatherTermResults` | src/services/api.ts:172-205 | the loop asks exactly the terms `TermsQueried` names, in order, and gathers their results appended in order; failed terms contribute nothing |
| `FieldSearch.KeywordFilterSpec` | src/services/api.ts:238-248 | strategy 4 keeps exactly the places whose lower-cased name holds a keyword, in order; it is empty exactly when no place qualifies |
| `FieldSearch.GetFootballFields` | src/services/api.ts:107-264 | no key: `MissingApiKey` and no request issued; otherwise the mapped result of the first strategy that found something (or `[]`), with exactly the requests of the strategies up to that one |
| `FieldSearch.FirstNonEmptyStrategyWins` | src/services/api.ts:118-255 | when strategy i is the first to find something, the result is its records mapped and no later strategy is asked |
| `FieldSearch.CategoryHitShortCircuits` | src/services/api.ts:118-143 | a category hit returns at once after a single request |
| `FieldSearch.AllStrategiesEmpty` | src/services/api.ts:250-255 | when all four strategies find nothing, the result is `[]` (not an error), after all four ran |
| `FieldSearch.TermsQueriedOnlyHits` | src/services/api.ts:180-204 | how many terms are queried, and what is gathered, depend only on the results of each reply |
| `FieldSearch.FailureCountsAsEmpty` | src/services/api.ts:118-253 | a failed request is treated exactly like an empty one: same result, same requests |
| `FieldSearch.TermSearchReturnsDeduplicated` | src/services/api.ts:207-214 | when strategy 3 decides, the result is the de-duplicated records mapped, never more than were gathered |
| `FieldSearch.CategorySearchKeepsDuplicateIds` | src/services/api.ts:137-140 | a category search returning the same place twice yields two fields with the same id |
| `FieldSearch.DeduplicatedIdsUnique` | src/services/api.ts:208-213 | after de-duplication the ids are unique, provided no upstream id starts with `field-` |
| `Geocoding.GeocodeCity` | src/services/api.ts:20-54 | a failed request fails; no match is 'City not found'; otherwise the first match's coordinates, named by its own name or else by the query, with country `address.country` or '' and region `address.state`, else `address.county`, else '' |
| `Geocoding.CityFromCoordinates` | src/services/api.ts:391-444 | never fails; echoes the coordinates; the name is never empty; after a reply, country is `address.country` or '' and region is `address.state`, else `address.county`, else ''; a failure gives 'Ubicación actual' with empty country and region |
| `Geocoding.ReverseNamePriority` | src/services/api.ts:415-422 | the name is the first present of city, town, village, suburb, municipality and county, else 'Ubicación actual' |
| `Geocoding.ReverseWithoutAddressIsFallback` | src/services/api.ts:415-430 | a reply without an address gives the same result as a failed lookup |
| `SearchBar.NextRecentHead` | src/components/SearchBar.tsx:69-81 | after a search the city heads the list and occurs in it once; the list has at most five entries |
| `SearchBar.NewCityPrepended` | src/components/SearchBar.tsx:71-72 | a new city is prepended to the first four old entries, which keep their order |
| `SearchBar.KnownCityMovedToFront` | src/components/SearchBar.tsx:73-80 | in a list of at most five entries, a known city moves to the front; the others stay in their old order, and nothing is lost or added |
| `SearchBar.NextRecentNoDup` | src/components/SearchBar.tsx:69-81 | a list without repeats keeps none |
| `SearchBar.NextRecentIdempotent` | src/components/SearchBar.tsx:69-81 | searching the same city twice leaves the list as searching once |
| `SearchBar.SearchBarState.constructor` | src/components/SearchBar.tsx:17-22 | empty query, closed dropdown, the saved history or none; a saved list that is short and free of repeats satisfies the invariant |
| `SearchBar.SearchBarState.SetQuery` | src/components/SearchBar.tsx:135-135 | only the query changes |
| `SearchBar.SearchBarState.HandleSearch` | src/components/SearchBar.tsx:69-84 | the history becomes the MRU update, the query is the city, the dropdown closes, and the city is searched; the list is bounded, and free of repeats when it was before |
| `SearchBar.SearchBarState.HandleSubmit` | src/components/SearchBar.tsx:59-64 | a query that is blank after trimming changes nothing and searches nothing; otherwise the untrimmed query is searched |
| `SearchBar.SearchBarState.ClearRecentSearches` | src/components/SearchBar.tsx:96-100 | the history becomes empty; nothing else changes |
| `MapMarkers.WithMarkerReplacesKind` | src/App.tsx:202-216 | after the update exactly one marker has that kind, the new one, placed last with popup `name - caption`; other kinds' markers are unchanged and in order |
| `MapMarkers.FieldPopupLighting` | src/App.tsx:180-184 | the popup starts with `Name - SurfaceType` and ends with ' (Iluminación)' exactly when the field has lighting |
| `MapMarkers.PopupDeterminesFlags` | src/App.tsx:182-182 | for the same name and surface, popups are equal exactly when the indoor and lighting flags are |
| `MapMarkers.FieldMarkers` | src/App.tsx:180-184 | one football marker per field, in order, at the field's coordinates, with its popup |
| `MapMarkers.MergeKeepsFirstWeather` | src/App.tsx:186-190 | the new markers come first, followed by the first old weather marker if there was one; every other old marker is dropped |
| `MapMarkers.MergeAtMostOneWeather` | src/App.tsx:186-190 | the football update leaves at most one weather marker |
| `MapMarkers.ApplyAtMostOneWeather` | src/App.tsx:186-216 | each of the two updates keeps at most one weather marker |
| `MapMarkers.ReplayAtMostOneWeather` | src/App.tsx:186-216 | no sequence of updates from a list with at most one weather marker (the empty list, say) produces two |
| `MapMarkers.AppState.constructor` | src/App.tsx:39-49 | no markers, no fields, no error, not loading |
| `MapMarkers.AppState.UpdateMarkers` | src/App.tsx:202-216 | the markers become the replaced list; the invariant of at most one weather marker is kept |
| `MapMarkers.AppState.FetchFootballFields` | src/App.tsx:159-198 | no key: the configuration error, no fields, markers untouched, no request; otherwise the search result is stored, with the 'No se encontraron…' error exactly when it is empty, and the markers are merged; loading ends false |
| `WeatherDisplay.IconClassRanges` | src/components/WeatherDisplay.tsx:57-65 | 1000 is sunny, 1003–1030 cloudy, 1063–1201 rainy, 1204–1225 snowy, 1273–1282 stormy, and the fog codes 1135–1147 are rainy |
| `WeatherDisplay.FogClassUnreachable` | src/components/WeatherDisplay.tsx:60-63 | no code gets 'foggy-icon' |
| `WeatherDisplay.IconClassEmpty` | src/components/WeatherDisplay.tsx:57-65 | the class is '' exactly for codes outside every range |
| `WeatherDisplay.FogCodeShownAsRain` | src/components/WeatherDisplay.tsx:60-63 | fog code 1135 gets 'rainy-icon' |
| `WeatherDisplay.IntendedIconClassSpec` | src/components/WeatherDisplay.tsx:57-65 | with the fog test first, exactly the fog codes get 'foggy-icon'; every other code keeps its class |
| `WeatherDisplay.IconUrl` | src/components/WeatherDisplay.tsx:80-83 | a URL starting with `//` becomes `https:` + url; any other is unchanged; the result never starts with `//` |
| `WeatherDisplay.IconUrlIdempotent` | src/components/WeatherDisplay.tsx:80-83 | fixing a URL twice is fixing it once |

## Left out

- HTTP transport. The model leaves out URLs, query parameters (among them
  `radius`, the metre conversion and `limit`), headers, the key's `trim()`
  and `console` logging. Each request is a request value, and each answer is
  an input.
- Distinct `Reply` outcomes. A reply without `data.results` is `Ok([])`.
  `Fail` covers a thrown request, and for reverse geocoding also an empty
  `response.data`.
- Environment reading of the API keys. The key is a parameter.
- `getWeatherByLocation`, `fetchWeatherData` and `getCurrentLocation`. They
  are thin wrappers over the weather service and the browser's geolocation
  API.
- `handleCitySearch`, `handleLocationRequest`, `handleMapClick`,
  `handleFieldSelect` and `handleRecentSelect`. They only sequence calls that
  are modelled or left out; `handleRecentSelect` is `handleSearch` itself.
- Asynchrony and React. This covers `async`/`await` order, `useState`
  batching (the model applies each update at once), effects, refs, the
  outside-click handler of the search bar, and rendering.
- `localStorage`. Storing the history is not modelled. Loading it is the
  constructor's `saved` parameter, not a parsed JSON string.
- Floating point. Coordinates are opaque `real`s, and `parseFloat` is the
  identity. The `|| default` coordinate fallback treats `0` as missing
  (`Places.OrNumber`). NaN, which JavaScript also treats as falsy, is not
  modelled.
- Value types. Condition codes are integers and price tiers are integers;
  a non-integer code or a tier given as a string is not modelled. A falsy
  `place.price` (`0`, `''`, `null`) is `None`. `fsq_id.toString()` on a
  non-string id is not modelled.
- Text. `toLowerCase` is ASCII only. `trim` removes a fixed set of
  whitespace characters (space, tab, line feed, carriage return, vertical
  tab, form feed, no-break space, byte-order mark), not every Unicode space.
- The `catch` of `fetchFootballFields` ('Error al obtener campos de
  fútbol…') is unreachable in the model. `getFootballFields` throws only
  when the key is missing, and `fetchFootballFields` checks the same key
  first. Every error of a single strategy is caught inside
  `getFootballFields`.

## Findings

| source | as written | input that shows it | evidently intended | confidence | as-written member | corrected member |
|---|---|---|---|---|---|---|
| src/components/WeatherDisplay.tsx:60-63 | the rain test (1063–1201) precedes the fog test (1135–1147), which it contains, so the fog branch never runs | condition code 1135 (fog) gets 'rainy-icon' | fog codes get 'foggy-icon' (the branch is commented "Niebla") | high — the branch is dead code; not executed | `WeatherDisplay.FogCodeShownAsRain` | `WeatherDisplay.IntendedIconClassSpec` |
