# powercalc-library-ui, modelled in Dafny

This project models the client-side data logic of the Powercalc profile library dashboard, a
React application that lists power profiles, shows one profile's details, and draws usage
statistics. Everything it models happens after a fetch has resolved: the resolved arrays are
inputs. The modelled logic covers six areas:

- **Grid filters and the URL** (`LibraryGrid`). This covers normalising filter values, reading
  column filters from the query string, and writing them back. It also covers the two
  reconciliation steps, URL→filters and filters→URL. In Dafny these are pure transitions on a
  `(columnFilters, searchParams)` state, plus a `GridSync` class whose two handlers are proved
  equal to those transitions. The query string is a list of name/value pairs with the
  `URLSearchParams` operations `get` / `set` / `toString` and its parser (`FormUrlEncoded`).
- **Statistics aggregation** (`StatisticsAggregator`). Each profile gives one value, through an
  extractor, a top-level key or a nested path walk. Truthy values are counted, the buckets are
  sorted by count descending and cut to the chosen top N, and the title's `Top N` is rewritten.
- **Library assembly** (`LibraryQuery`, `ProfileMappers`, `LibraryContext`). The analytics
  index, the nested manufacturer/model loop that builds the profile list, the keyed index and
  the authors and manufacturers tables. Also the per-model field defaults and the older flat
  profile list of the library context.
- **Profile loading** (`PowerProfileLoader`). Route parameter validation, the `.png` plot
  links, the sub-profile links and their names, and the unknown-key error.
- **Statistics views**:
  - `DimensionCounts`, `SensorDimensions`, `SensorDimensionDetailView` and
    `DimensionDetailView` cover grouping by dimension, metric sorts (one with a secondary key),
    positive-value chart data, two title formatters and metric query-parameter updates;
  - `TimeSeries` covers the series selection of the time-series and opt-in charts;
  - `TopCountries` covers the top-ten countries.
- **Detail views** (`ProfilePage`, `DetailPanel`, `PropertyList`, `AuthorPage`, `AliasChips`).
  Filtering empty property rows and cutting them into columns of four, color modes from plot
  file names, an author's profiles grouped by device type, and alias chips with a `+N more`
  count.

Shared helper modules:

- `Wrappers` holds `Option` and `Result`.
- `Strings` holds `split`, `join`, `indexOf`, `replace`, lower-casing, word capitalisation,
  number text and a lexicographic order.
- `Sorting` holds the stable sort `Array.prototype.sort` performs, as an insertion sort, with
  its sortedness, permutation and uniqueness lemmas.
- `Lists` holds the filter-and-map combinator.
- `KeyedIndex` models a `Map`/record written key by key.
- `Grouping` models the `(acc[k] ??= []).push(item)` reduce that four views share.
- `JsValues` models dynamically typed JavaScript values, with truthiness and `String(v)`.

Where the source copies one piece of logic into several files, the model states it once and
cites every copy:

- the chunk-by-four loop of `Profile.tsx` and `DetailPanel.tsx`;
- the series transform of `TimeSeries.tsx` and `Optins.tsx`;
- the `groupByDimension` reduce of `DimensionCounts.tsx` and `SensorDimensions.tsx`;
- the title formatter of `DimensionCounts.tsx`, `SensorDimensions.tsx` and `DimensionDetailView.tsx`;
- the metric sort of `DimensionCounts.tsx`, `SensorDimensions.tsx` and `DimensionDetailView.tsx`.

Where the code and the intended design part ways, the model follows the code. Filters on
columns without a URL parameter are meant to stay in force for the session without being
written to the URL. In the code, a UI change that rewrites the URL makes the URL-driven effect
replace the filters by those the new query carries, so such filters, and filters whose value
normalises to `""`, are dropped once a UI change rewrites the URL
(`LibraryGrid.TransientFiltersWiped`); a UI change that leaves the URL as it is keeps them
(`LibraryGrid.TransientFiltersKept`).

## Model

| member | source | states |
|---|---|---|
| LibraryGrid.NormalizeFilterVal | src/components/LibraryGrid.tsx:59-67 | a nullish value becomes `""`; a string is kept as it is; any other value that is not an array becomes `String(v)` |
| LibraryGrid.NormalizeArray | src/components/LibraryGrid.tsx:60-62 | an array becomes the comma-join of a sorted rearrangement of its elements' `String` texts |
| LibraryGrid.NormalizePermutation | src/components/LibraryGrid.tsx:60-62 | two arrays with the same elements in any order normalise to the same text |
| LibraryGrid.FilterFrom | src/components/LibraryGrid.tsx:75-78 | a map entry gives a filter exactly when its parameter is present and non-empty; the filter has the entry's column id and the raw text |
| LibraryGrid.BuildFilterStateFromSearchParams | src/components/LibraryGrid.tsx:69-81 | the loop over the map returns the filter-and-map of the map entries by `FilterFrom` |
| LibraryGrid.FiltersForMembers | src/components/LibraryGrid.tsx:69-81 | at most one filter per map entry; a filter is produced exactly when some entry maps a present, non-empty parameter to its id with that text |
| LibraryGrid.ParamForFound | src/components/LibraryGrid.tsx:90 | there is no parameter exactly when no entry names the column; otherwise it is the first such entry's name |
| LibraryGrid.PairOf | src/components/LibraryGrid.tsx:90-97 | a filter gives a pair exactly when its column has a non-empty parameter and its normalised value is non-empty; the pair is that parameter and that value |
| LibraryGrid.CollectParamPairs | src/components/LibraryGrid.tsx:88-98 | the loop collects the pairs of the filters, in filter order, skipping those without a parameter or a value |
| LibraryGrid.ParamPairsStep | src/components/LibraryGrid.tsx:89-98 | one more filter appends its pair at the end when it has one and changes nothing otherwise |
| LibraryGrid.SetEach | src/components/LibraryGrid.tsx:99 | `forEach(set)` on fresh parameters leaves what setting the sorted pairs one after another gives |
| LibraryGrid.BuildSearchParamsFromFilterState | src/components/LibraryGrid.tsx:83-101 | the text is the serialisation of the sorted pairs, each `set` in turn |
| LibraryGrid.ParseSearchString | src/components/LibraryGrid.tsx:83-101 | parsing the written query string gives back exactly the parameters written |
| LibraryGrid.WrittenParamsShape | src/components/LibraryGrid.tsx:87-100 | the written parameters are sorted by name with each name once; each is some filter's pair and a key of the map; every filter with a pair has its name written |
| LibraryGrid.PairNamesDistinct | src/components/LibraryGrid.tsx:89-98 | filters with distinct ids and a map with distinct names give pairs with distinct names |
| LibraryGrid.SortDistinct | src/components/LibraryGrid.tsx:99 | sorting by a key that is distinct gives a list sorted by that key, still distinct, with the same members |
| LibraryGrid.SearchStringPermutation | src/components/LibraryGrid.tsx:99-100 | reordering filters with distinct ids gives the identical query string |
| LibraryGrid.WrittenDistinct | src/components/LibraryGrid.tsx:99 | with distinct names, `set` only appends, so the written parameters are the sorted pairs themselves |
| LibraryGrid.ReadBackEntry | src/components/LibraryGrid.tsx:69-101 | a written parameter that the map names comes from a filter on that entry's column with that pair |
| LibraryGrid.MapNormalizedDistinct | src/components/LibraryGrid.tsx:148-153 | normalising filters with distinct ids keeps the ids distinct |
| LibraryGrid.ReadBackDistinct | src/components/LibraryGrid.tsx:69-101 | the filters read back from the written query have distinct ids |
| LibraryGrid.ReadBackSound | src/components/LibraryGrid.tsx:69-101 | every filter read back from the written query is, after normalising, one of the original filters |
| LibraryGrid.WrittenGet | src/components/LibraryGrid.tsx:83-101 | `get` on the written query finds each persisted filter's value under its parameter name |
| LibraryGrid.ReadBackComplete | src/components/LibraryGrid.tsx:69-101 | every persisted filter, normalised, is among the filters read back |
| LibraryGrid.ReadBackMembers | src/components/LibraryGrid.tsx:69-101 | when every filter is persisted, the normalised filters read back and the normalised originals have the same members |
| LibraryGrid.ReadBackSoundMember | src/components/LibraryGrid.tsx:69-101 | membership form of `ReadBackSound` |
| LibraryGrid.ReadBackCompleteMember | src/components/LibraryGrid.tsx:69-101 | membership form of `ReadBackComplete` |
| LibraryGrid.RoundTrip | src/components/LibraryGrid.tsx:69-101 | the round trip holds for filters with distinct mapped ids and non-empty values and a map with distinct names: writing, parsing and reading back gives the same id-sorted normalised list |
| LibraryGrid.UrlStep | src/components/LibraryGrid.tsx:146-157 | the URL step never touches the query; afterwards the filters agree with the URL under normalisation; the filters are left alone when they already agree, and are replaced by exactly the filters the URL carries when they do not |
| LibraryGrid.UrlStepIdempotent | src/components/LibraryGrid.tsx:146-157 | a second URL step with the same query changes nothing |
| LibraryGrid.InitialStateStable | src/components/LibraryGrid.tsx:121-123 | the initial filters read from the URL are a fixed point of the URL step (see also lines 146-157) |
| LibraryGrid.UiStep | src/components/LibraryGrid.tsx:301-313 | the UI step always adopts `next`; the query is left alone unless the target text differs from the current one |
| LibraryGrid.UiStepQuery | src/components/LibraryGrid.tsx:301-313 | after the UI step the query serialises to the target text; it is the written parameters of `next`, so only map keys remain and other parameters are dropped (see also line 87) |
| LibraryGrid.NoFeedbackLoop | src/components/LibraryGrid.tsx:146-157 | when every new filter is on its own column, has a parameter and a non-empty normalised value, the URL step that follows a UI step leaves the new state alone (see also lines 301-313) |
| LibraryGrid.UrlStepFiltersMapped | src/components/LibraryGrid.tsx:146-157 | every filter left in force by the URL step has a parameter and a non-empty normalised value |
| LibraryGrid.CanonicalMember | src/components/LibraryGrid.tsx:151-155 | filter lists the URL step compares as equal share every column and normalised value |
| LibraryGrid.TransientFiltersWiped | src/components/LibraryGrid.tsx:301-313 | once a UI change rewrites the URL, a filter on a column without a parameter, or with a value that normalises to `""`, is dropped by the URL step the new query sets off, and so is every filter on an unmapped column (see also lines 146-157) |
| LibraryGrid.TransientFiltersKept | src/components/LibraryGrid.tsx:307-310 | a UI change that leaves the query string as it is adopts the new filters as given, keeping every one of them, and leaves the query alone |
| LibraryGrid.GridSettles | src/components/LibraryGrid.tsx:108-119 | on the grid's own parameter map, persisted filters with distinct columns read back as themselves and the URL step after a UI step leaves the state alone (see also lines 146-157, lines 301-313) |
| LibraryGrid.FilterParamMapKeys | src/components/LibraryGrid.tsx:108-119 | the grid's parameter names are distinct |
| LibraryGrid.GridSync.constructor | src/components/LibraryGrid.tsx:121-123 | the first filters are the ones the URL gives |
| LibraryGrid.GridSync.OnSearchParamsChange | src/components/LibraryGrid.tsx:146-158 | the effect leaves the state the URL step gives |
| LibraryGrid.GridSync.OnColumnFiltersChange | src/components/LibraryGrid.tsx:301-314 | the handler leaves the state the UI step gives; it reports a replace navigation exactly when the URL is rewritten |
| LibraryGrid.SomeIncludes | src/components/LibraryGrid.tsx:211-213 | true exactly when some cell element, lower-cased, contains the needle |
| LibraryGrid.ColorModesFilter | src/components/LibraryGrid.tsx:205-213 | false for a non-array cell; true for an empty filter value; otherwise true exactly when some element contains the filter value, ignoring case |
| LibraryGrid.ColorModesFilterCaseInsensitive | src/components/LibraryGrid.tsx:212 | lower-casing the filter value does not change the outcome |
| LibraryGrid.ColorModesFilterExact | src/components/LibraryGrid.tsx:211-213 | a cell that holds the filter value itself passes |
| StatisticsAggregator.WalkPath | src/components/statistics/StatisticsAggregator.tsx:44-54 | the loop with its early `break` returns the value of the nested walk |
| StatisticsAggregator.WalkUndefined | src/components/statistics/StatisticsAggregator.tsx:47-51 | once the walk has failed with `undefined`, the rest of the path keeps it `undefined` |
| StatisticsAggregator.WalkConcat | src/components/statistics/StatisticsAggregator.tsx:46-53 | walking a path in two parts is walking the first part and then the second from where it ended |
| StatisticsAggregator.Extract | src/components/statistics/StatisticsAggregator.tsx:40-43 | a supplied extractor decides the value; without one, a string path reads that top-level field, or `undefined` when it is missing |
| StatisticsAggregator.KeyIsOneStepPath | src/components/statistics/StatisticsAggregator.tsx:42-54 | a one-key array path reads the same value as the string path |
| StatisticsAggregator.Bucket | src/components/statistics/StatisticsAggregator.tsx:57 | a value goes into a bucket exactly when it is truthy |
| StatisticsAggregator.HasNameCons | src/components/statistics/StatisticsAggregator.tsx:58 | a bucket name occurs in a list exactly when it heads the list or occurs in the rest |
| StatisticsAggregator.Bump | src/components/statistics/StatisticsAggregator.tsx:58 | one increment adds one to the total count |
| StatisticsAggregator.BumpLookup | src/components/statistics/StatisticsAggregator.tsx:58 | `counts[value] = (counts[value] \|\| 0) + 1` raises that bucket by one and no other |
| StatisticsAggregator.BumpNames | src/components/statistics/StatisticsAggregator.tsx:58 | the increment adds the name when it is new, and only then adds an entry |
| StatisticsAggregator.BumpDistinct | src/components/statistics/StatisticsAggregator.tsx:58 | the dictionary keeps one entry per name |
| StatisticsAggregator.Bucketed | src/components/statistics/StatisticsAggregator.tsx:37-60 | at most one bucketed value per profile |
| StatisticsAggregator.TallyCounts | src/components/statistics/StatisticsAggregator.tsx:35-60 | each bucket's count is the number of profiles with that value; the names are exactly the values some profile has, each once; the counts add up to the bucketed profiles |
| StatisticsAggregator.LookupAt | src/components/statistics/StatisticsAggregator.tsx:58 | with one entry per name, reading a name gives its entry's count (see also lines 62-63) |
| StatisticsAggregator.FalsyNotCounted | src/components/statistics/StatisticsAggregator.tsx:57-59 | a profile with a falsy value leaves the dictionary unchanged |
| StatisticsAggregator.CountValues | src/components/statistics/StatisticsAggregator.tsx:35-60 | the `forEach` loop leaves the tally of the profiles |
| StatisticsAggregator.CountDescTotalPreorder | src/components/statistics/StatisticsAggregator.tsx:64 | the comparator `b.count - a.count` is a total preorder, so the stable sort is well defined |
| StatisticsAggregator.ItemsShape | src/components/statistics/StatisticsAggregator.tsx:62-64 | `items` is non-increasing by count and a permutation of the tally; it lists each value once and the right count for each; its names are exactly the values some profile has |
| StatisticsAggregator.ItemsOrdered | src/components/statistics/StatisticsAggregator.tsx:64 | `items` is non-increasing by count |
| StatisticsAggregator.ItemsDistinct | src/components/statistics/StatisticsAggregator.tsx:62-64 | `items` is a permutation of the tally with each name once |
| StatisticsAggregator.ItemsCounts | src/components/statistics/StatisticsAggregator.tsx:35-64 | each item's count is the number of profiles with its value |
| StatisticsAggregator.ItemsNames | src/components/statistics/StatisticsAggregator.tsx:35-64 | a name is listed exactly when some profile has that value |
| StatisticsAggregator.CountsBounded | src/components/statistics/StatisticsAggregator.tsx:35-60 | the counts add up to at most the number of profiles |
| StatisticsAggregator.FirstTop | src/components/statistics/StatisticsAggregator.tsx:72 | finds the first `Top <digit>` position at or after the start, and no earlier one |
| StatisticsAggregator.DigitsEnd | src/components/statistics/StatisticsAggregator.tsx:72 | the end of the longest digit run from a position |
| StatisticsAggregator.ReplaceTopNShape | src/components/statistics/StatisticsAggregator.tsx:72 | with no `Top <digits>` the title is kept; otherwise only the first one's digits are replaced by the results count, and the text before and after is kept |
| StatisticsAggregator.FirstTopAt | src/components/statistics/StatisticsAggregator.tsx:72 | the first position that matches is the one found |
| StatisticsAggregator.SamePrefixNoTop | src/components/statistics/StatisticsAggregator.tsx:72 | two titles that agree up to a match have no earlier match in either |
| StatisticsAggregator.DigitsRun | src/components/statistics/StatisticsAggregator.tsx:72 | a maximal digit run ends where `\d+` stops |
| StatisticsAggregator.ReplaceTopNIdempotent | src/components/statistics/StatisticsAggregator.tsx:72 | rewriting the title twice with the same count is rewriting it once |
| StatisticsAggregator.Aggregator.constructor | src/components/statistics/StatisticsAggregator.tsx:28-29 | no items and ten results at first |
| StatisticsAggregator.Aggregator.Refresh | src/components/statistics/StatisticsAggregator.tsx:32-68 | the items are recomputed only when not loading, with no error and some profiles; otherwise they are kept; the results count is kept |
| StatisticsAggregator.Aggregator.SetResultsCount | src/components/statistics/StatisticsAggregator.tsx:81 | only the results count changes |
| StatisticsAggregator.Aggregator.Displayed | src/components/statistics/StatisticsAggregator.tsx:73 | the displayed items are a prefix of `items` of length `min(resultsCount, items.length)` |
| StatisticsAggregator.TakeMonotone | src/components/statistics/StatisticsAggregator.tsx:73 | showing fewer results shows a prefix of what showing more shows, so the count never reorders |
| KeyedIndex.IndexLastWins | src/queries/library.query.ts:17-19 | a map written key by key has exactly the keys written; each key holds the last element written under it (see also line 70) |
| KeyedIndex.IndexAt | src/queries/library.query.ts:17-19 | the last element written under a key is the one the map holds (see also line 70) |
| KeyedIndex.IndexDistinct | src/queries/library.query.ts:70 | with distinct keys every element is the one the map holds under its key |
| KeyedIndex.FirstIndexSnoc | src/queries/library.query.ts:72-74 | `??=` behind a truthiness test adds a new non-empty key and leaves an existing one alone |
| KeyedIndex.FirstIndexFirstWins | src/queries/library.query.ts:72-74 | the `??=` map has exactly the non-empty keys written; each holds the first element written under it |
| LibraryQuery.CreateAnalyticsMap | src/queries/library.query.ts:15-21 | the loop of `map.set` under `manufacturer/model` builds the keyed index of the analytics entries |
| LibraryQuery.AnalyticsMapLastWins | src/queries/library.query.ts:15-21 | the analytics map has a key exactly for each entry's `manufacturer/model`; duplicate keys keep the last entry |
| LibraryQuery.GetUsageStats | src/queries/library.query.ts:23-27 | no entry gives `0, 0, 0`; otherwise each field is the entry's value or 0 when it is missing |
| LibraryQuery.RowsOf | src/queries/library.query.ts:63 | a manufacturer contributes one row per model, in model order; none when `models` is missing |
| LibraryQuery.RowsCount | src/queries/library.query.ts:55-76 | the rows of all manufacturers number the sum of their model counts |
| LibraryQuery.QueryFn | src/queries/library.query.ts:39-84 | the assembly returns the empty library when there are no manufacturers, and otherwise the profiles of all rows with their keyed index, authors and manufacturers |
| LibraryQuery.AddModels | src/queries/library.query.ts:63-75 | the inner loop appends one profile per model and keeps the keyed index and the authors table in step with the profile list |
| LibraryQuery.RowsStep | src/queries/library.query.ts:55-76 | one more manufacturer appends its rows |
| LibraryQuery.ModelStep | src/queries/library.query.ts:64-74 | one more model appends its profile, sets its key in the index, and adds its author only for a new non-empty username |
| LibraryQuery.ManufacturerStep | src/queries/library.query.ts:56-61 | one more manufacturer sets its `dir_name` entry |
| LibraryQuery.MapStep | src/queries/library.query.ts:63-69 | mapping one more element appends its image |
| LibraryQuery.ByKeyStep | src/queries/library.query.ts:70 | one more profile sets its key |
| LibraryQuery.AuthorsStep | src/queries/library.query.ts:72-74 | one more profile adds its author only for a new non-empty username |
| LibraryQuery.EmptyLibrary | src/queries/library.query.ts:39-47 | a missing or empty manufacturers list gives no profiles, an empty index, no authors, no manufacturers and total 0 |
| LibraryQuery.ProfilesShape | src/queries/library.query.ts:55-71 | `total` is the number of profiles and the sum of the model counts; profile `i` is row `i`'s model, with its manufacturer, in manufacturer-then-model order (see also line 81) |
| LibraryQuery.ByKeyLastWins | src/queries/library.query.ts:64 | every profile is reachable under its `dir_name/id`; for duplicate keys the last profile wins (see also line 70) |
| LibraryQuery.ProfileKeyOfRow | src/queries/library.query.ts:64 | a profile's key is its row's `dir_name/id` (see also line 68) |
| LibraryQuery.UsageJoin | src/queries/library.query.ts:64-66 | a model without an analytics entry gets `0, 0, 0`; otherwise it gets the last entry with its key |
| LibraryQuery.AuthorsFirstWins | src/queries/library.query.ts:72-74 | `authors` has exactly the non-empty usernames of the profiles; each maps to the first profile's author with that username |
| LibraryQuery.AuthorNamesAt | src/queries/library.query.ts:72-73 | the author of profile `i` is the `i`th author written |
| LibraryQuery.AuthorsKey | src/queries/library.query.ts:72-74 | a username is a key of `authors` exactly when it is non-empty and some profile has it |
| LibraryQuery.AuthorsFirst | src/queries/library.query.ts:72-74 | the author kept for a username is the first profile's with it |
| LibraryQuery.ManufacturersKeyed | src/queries/library.query.ts:56-61 | `manufacturers` is keyed by `dir_name`, holds that `dirName` and the full name of the last manufacturer with it |
| ProfileMappers.JoinedAliases | src/utils/profileMappers.ts:18 | missing aliases give `""`; otherwise the aliases joined with `\|` |
| ProfileMappers.AuthorOf | src/utils/profileMappers.ts:31-35 | name and username default to `''` and the email is passed through |
| ProfileMappers.MapToBasePowerProfileFields | src/utils/profileMappers.ts:14-40 | the manufacturer, usage stats and scalar fields are copied; aliases are joined; colour modes, sub-profile count, minimum version and integrations get their defaults; `maxPower` is kept exactly when it is set and positive |
| ProfileMappers.AliasesSplitBack | src/utils/profileMappers.ts:18 | splitting the joined aliases on `\|` gives them back when no alias holds a `\|` |
| ProfileMappers.NoAliasesEmpty | src/utils/profileMappers.ts:18 | missing or empty aliases give `""` |
| LibraryContext.JoinedAliasesOpt | src/context/LibraryContext.tsx:33 | aliases are joined with `\|` when present and stay `undefined` when absent |
| LibraryContext.FlatProfilesRows | src/context/LibraryContext.tsx:26-48 | the flattening fails exactly when some manufacturer has no `models`; otherwise it is one entry per model, manufacturer by manufacturer |
| LibraryContext.ProvideShape | src/context/LibraryContext.tsx:26-57 | `total` is the number of profiles and the sum of the model counts; `loading` is passed through; `error` is the fixed message exactly when the query failed and `null` otherwise |
| LibraryContext.ProvideEmpty | src/context/LibraryContext.tsx:27 | no data or no manufacturers gives no profiles and total 0 |
| LibraryContext.ProvideProfileAt | src/context/LibraryContext.tsx:29-47 | entry `i` is row `i`'s model: manufacturer, id, joined aliases, author and powers copied, colour modes defaulting to `[]` |
| LibraryContext.AgreesWithQuery | src/context/LibraryContext.tsx:26-48 | the context's flat list and the library query's profile list have the same length and the same model and manufacturer at each position |
| LibraryContext.RowAgrees | src/context/LibraryContext.tsx:29-32 | a row gives the same model id and manufacturer on both paths |
| PowerProfileLoader.RequireParams | src/loaders/powerProfileLoader.ts:15-22 | fails with the fixed message exactly when the manufacturer or the model is missing or empty; otherwise returns both unchanged |
| PowerProfileLoader.ToPlotsExactly | src/loaders/powerProfileLoader.ts:30-37 | the plots are exactly the links whose url ends with `.png`, each labelled with its path up to the first `.` |
| PowerProfileLoader.ToPlotsOrder | src/loaders/powerProfileLoader.ts:30-37 | both link filters work link by link, so they keep the links' order (see also lines 40-42) |
| PowerProfileLoader.PlotLabelPrefix | src/loaders/powerProfileLoader.ts:35 | a plot label is the longest prefix of the path without a `.` |
| PowerProfileLoader.SubProfileNamePrefix | src/loaders/powerProfileLoader.ts:47 | a sub-profile name is the longest prefix of the path without a `/` |
| PowerProfileLoader.ToSubProfilesExactly | src/loaders/powerProfileLoader.ts:40-47 | the sub-profiles are exactly the links whose url ends with `model.json` and whose path is not `model.json`, each named by its first path segment |
| PowerProfileLoader.TopModelNotSubProfile | src/loaders/powerProfileLoader.ts:41 | the profile's own `model.json` is never a sub-profile |
| PowerProfileLoader.LoadOutcome | src/loaders/powerProfileLoader.ts:52-88 | missing parameters fail first; a key missing from the index fails with `Unknown profile <manufacturer>/<model>`; otherwise the profile is the indexed one with `measureDescription` from the model data or `''`, and its plots and sub-profiles come from the links |
| Grouping.WithKey | src/components/statistics/DimensionCounts.tsx:28-33 | a group is never longer than the items |
| Grouping.WithKeyMembers | src/components/statistics/DimensionCounts.tsx:28-33 | a group holds exactly the items with its key |
| Grouping.WithKeyMember | src/components/statistics/DimensionCounts.tsx:28-33 | membership form of `WithKeyMembers` for one item |
| Grouping.GroupBy | src/components/statistics/DimensionCounts.tsx:28-33 | the reduce that pushes each item into its key's array gives exactly the keys present, each holding its items in input order (see also `src/components/statistics/analytics/SensorDimensions.tsx:25-30`) |
| Grouping.Step | src/components/statistics/DimensionCounts.tsx:30 | one `(acc[k] ??= []).push(item)` extends the grouping of what came before by one item |
| Grouping.WithKeySnoc | src/components/statistics/DimensionCounts.tsx:30 | one more item is appended to its own group only |
| Grouping.WithKeyConcat | src/components/statistics/DimensionCounts.tsx:28-33 | grouping keeps input order: the group of a concatenation is the concatenation of the groups |
| Grouping.WithKeyConcatStep | src/components/statistics/DimensionCounts.tsx:28-33 | the induction step of `WithKeyConcat` |
| Grouping.KeysOfSnoc | src/components/statistics/DimensionCounts.tsx:30 | one more item adds its key to the keys present |
| Grouping.WithKeyNonEmpty | src/components/statistics/DimensionCounts.tsx:28-33 | a group is non-empty exactly when its key is present |
| Grouping.SizeSumSnoc | src/components/Author.tsx:37-44 | the group sizes over distinct keys grow by one exactly when the new item's key is among them |
| Grouping.GroupSizesSum | src/components/Author.tsx:34 | over distinct keys covering every item, the group sizes add up to the number of items (see also lines 37-44) |
| Grouping.SizeSumEmpty | src/components/Author.tsx:37-44 | no items, no group sizes |
| Grouping.GroupsCover | src/components/statistics/DimensionCounts.tsx:28-33 | every item lies in the group of its key |
| Grouping.GroupsSound | src/components/statistics/DimensionCounts.tsx:28-33 | a group holds only items of the input with that key |
| Grouping.GroupsNonEmpty | src/components/statistics/DimensionCounts.tsx:28-33 | no group is empty |
| Grouping.KeyOrderKeys | src/components/statistics/DimensionCounts.tsx:83 | `Object.keys` of the grouping lists each key present exactly once |
| AuthorPage.ProfilesByDeviceType | src/components/Author.tsx:37-44 | the grouping has exactly the device types present, each holding the author's profiles of that type in order |
| AuthorPage.DeviceTypeSections | src/components/Author.tsx:154 | the page's sections are the grouping's device types, each once, in the order each first occurs, starting with the first profile's type |
| Grouping.KeyOrderHead | src/components/Author.tsx:154 | the first key listed is the first item's |
| AuthorPage.AuthorProfilesExactly | src/components/Author.tsx:29-32 | nothing without a route name; otherwise exactly the profiles with that username; never more than the profiles |
| AuthorPage.AuthorProfilesOrder | src/components/Author.tsx:31 | the filter keeps the order of the profiles |
| AuthorPage.GroupSizes | src/components/Author.tsx:34 | the group sizes add up to the contribution count (see also lines 37-44) |
| AuthorPage.ContributionPlural | src/components/Author.tsx:101 | the text ends in `contributions` exactly when the count is not 1, and starts with the count |
| AuthorPage.DisplayName | src/components/Author.tsx:35 | the header shows the author record's name when it has a non-empty one and the route name otherwise, and is never empty when the route name is not (see also line 64, line 78) |
| DimensionCounts.GroupByDimension | src/components/statistics/DimensionCounts.tsx:28-33 | exactly the dimensions present, each holding its records in input order |
| DimensionCounts.GetErrorMessage | src/components/statistics/DimensionCounts.tsx:35-39 | an `Error` gives its message, a string gives itself, anything else `Unknown error` |
| DimensionCounts.DimensionsSortedKeys | src/components/statistics/DimensionCounts.tsx:82-85 | `dimensions` is sorted ascending, without repeats, and lists exactly the dimensions present (see also `src/components/statistics/analytics/SensorDimensions.tsx:79-82`) |
| DimensionCounts.MetricDescTotalPreorder | src/components/statistics/DimensionCounts.tsx:181-183 | the metric comparator is a total preorder |
| DimensionCounts.SortedDataShape | src/components/statistics/DimensionCounts.tsx:181-183 | `sortedData` is a permutation of the group, non-increasing in the metric, with a missing value read as 0 (see also `src/components/statistics/analytics/SensorDimensions.tsx:137-139`) |
| DimensionCounts.ChartDataExactly | src/components/statistics/DimensionCounts.tsx:185-191 | every slice has a positive value and is some record's `dimension:key_name` slice; every record with a positive value has its slice (see also `src/components/statistics/analytics/SensorDimensions.tsx:141-147`) |
| DimensionCounts.ChartDataOrder | src/components/statistics/DimensionCounts.tsx:185-191 | the slices keep the records' order |
| DimensionCounts.RenderDetail | src/components/statistics/DimensionCounts.tsx:87-123 | the detail view is shown exactly when not loading, no error, and the URL dimension is one present; it gets exactly that dimension's records |
| DimensionCounts.OverviewPanels | src/components/statistics/DimensionCounts.tsx:125-196 | otherwise one panel per dimension in sorted order, each with its title and the positive slices of its sorted records |
| DimensionCounts.PrettifyNoUnderscore | src/components/statistics/DimensionCounts.tsx:195 | no `_` is left |
| DimensionCounts.UpperCharWord | src/components/statistics/DimensionCounts.tsx:196 | upper-casing a character keeps it a word character and keeps its lower case |
| DimensionCounts.CapitalizeWordsShape | src/components/statistics/DimensionCounts.tsx:196 | capitalising keeps the text up to case and the word starts, and leaves no lower-case letter at a word start |
| DimensionCounts.PrettifyFixed | src/components/statistics/DimensionCounts.tsx:195-196 | text without `_` whose word starts are not lower-case is left as it is |
| DimensionCounts.NoUnderscoreNoBy | src/components/statistics/DimensionCounts.tsx:194 | text without `_` holds no `by_` |
| DimensionCounts.FormatTitleShape | src/components/statistics/DimensionCounts.tsx:193-196 | the title has no `_` and no lower-case word start, equals the dimension with the first `by_` removed and `_` made spaces up to case, and formatting it again changes nothing (see also `src/components/statistics/analytics/SensorDimensions.tsx:149-152`, `src/components/statistics/DimensionDetailView.tsx:34-37`) |
| DimensionCounts.FormatTitleStripsFirstBy | src/components/statistics/DimensionCounts.tsx:194 | the first `by_`, wherever it is, is the one removed |
| DimensionCounts.FormatTitleKeepsNoBy | src/components/statistics/DimensionCounts.tsx:194 | without `by_` only the underscores and the case change |
| DimensionCounts.ReplaceFirstAtStart | src/components/statistics/analytics/SensorDimensionDetailView.tsx:34 | a pattern at the start is the one removed |
| SensorDimensions.InitialMetric | src/components/statistics/analytics/SensorDimensions.tsx:38 | the initial metric is never empty |
| SensorDimensions.InitialMetricChoice | src/components/statistics/analytics/SensorDimensions.tsx:38 | it is the `metric` parameter when that is present and non-empty, and `installation_count` otherwise |
| SensorDimensions.SensorDimensionsPage.constructor | src/components/statistics/analytics/SensorDimensions.tsx:38-39 | `selectedMetric` starts as the initial metric |
| SensorDimensions.SensorDimensionsPage.HandleMetricChange | src/components/statistics/analytics/SensorDimensions.tsx:46-52 | adopts the metric and navigates, with replace, to the current parameters with `metric` set and every other parameter kept |
| SensorDimensions.SensorDimensionsPage.HandleDetailMetricChange | src/components/statistics/analytics/SensorDimensions.tsx:65-67 | adopts the metric the detail view reports |
| SensorDimensions.MetricChangeRestores | src/components/statistics/analytics/SensorDimensions.tsx:38 | a page opened on the query a metric change wrote starts from that metric (see also lines 46-52) |
| SensorDimensions.PagePathPlain | src/components/statistics/analytics/SensorDimensions.tsx:56 | the page path has no `?` of its own (see also line 61) |
| SensorDimensions.LinksCarryMetric | src/components/statistics/analytics/SensorDimensions.tsx:54-62 | the query of both the detail link and the back link parses as the single parameter `metric` with the selected metric |
| SensorDimensions.SerializeMetric | src/components/statistics/analytics/SensorDimensions.tsx:56 | `metric=<value>` is how the one parameter serialises, for a value the encoding leaves alone (see also line 61) |
| SensorDimensionDetailView.MetricSelection.constructor | src/components/statistics/analytics/SensorDimensionDetailView.tsx:48 | `selectedMetric` starts as the `metric` prop |
| SensorDimensionDetailView.MetricSelection.OnMetricProp | src/components/statistics/analytics/SensorDimensionDetailView.tsx:50-52 | a new `metric` prop resyncs `selectedMetric` |
| SensorDimensionDetailView.MetricSelection.HandleMetricChange | src/components/statistics/analytics/SensorDimensionDetailView.tsx:54-64 | adopts the metric, navigates with replace to the dimension's path with `metric` set on a copy of the query, and notifies the parent exactly when it listens |
| SensorDimensionDetailView.MetricThenKeyTotalPreorder | src/components/statistics/analytics/SensorDimensionDetailView.tsx:67-72 | the two-key comparator is a total preorder |
| SensorDimensionDetailView.SortedShape | src/components/statistics/analytics/SensorDimensionDetailView.tsx:66-73 | `sortedData` is a permutation of the data, non-increasing in the metric with a missing value read as 0, and ties are in ascending `key_name` order |
| SensorDimensionDetailView.ChartShape | src/components/statistics/analytics/SensorDimensionDetailView.tsx:75-82 | one bar per item in sorted order, with the value defaulting to 0; the chart is `36 * bars + 40` high (see also lines 89-90) |
| SensorDimensionDetailView.WithMetricQuery | src/components/statistics/analytics/SensorDimensionDetailView.tsx:58-59 | the copy has `metric` set to the new value and every other parameter as it was |
| SensorDimensionDetailView.TitlesAgree | src/components/statistics/analytics/SensorDimensionDetailView.tsx:32-37 | the two title formatters agree when `by_` is a prefix or absent |
| SensorDimensionDetailView.TitlesDiffer | src/components/statistics/analytics/SensorDimensionDetailView.tsx:32-37 | they differ on `x_by_y`: this view gives `X By Y`, the dimension-count page `X Y` |
| SensorDimensionDetailView.InnerByRemoved | src/components/statistics/DimensionCounts.tsx:194 | `replace("by_", "")` removes a `by_` that is not a prefix |
| SensorDimensionDetailView.PrettifyXY | src/components/statistics/DimensionCounts.tsx:195-196 | `x_y` prettifies to `X Y` |
| SensorDimensionDetailView.PrettifyXByY | src/components/statistics/analytics/SensorDimensionDetailView.tsx:32-37 | `x_by_y` formats to `X By Y` here |
| DimensionDetailView.MetricLabel | src/components/statistics/DimensionDetailView.tsx:40-42 | the label is `Installation Count` exactly for `installation_count` and `Total Count` otherwise |
| DimensionDetailView.DetailViewBars | src/components/statistics/DimensionDetailView.tsx:29-31 | one bar per record, in the order of the non-increasing metric sort, with the value defaulting to 0; the bars are a rearrangement of the records' bars (see also lines 45-48) |
| TimeSeries.FindSeries | src/components/statistics/analytics/TimeSeries.tsx:18 | `find` returns the first series with the name, or nothing exactly when no series has it (see also `src/components/statistics/analytics/Optins.tsx:16`) |
| TimeSeries.TransformPicksFirst | src/components/statistics/analytics/TimeSeries.tsx:14-28 | no series named after the query metric gives `[]`; otherwise the points of the first such series, converted (see also `src/components/statistics/analytics/Optins.tsx:12-27`) |
| TimeSeries.TransformPoints | src/components/statistics/analytics/TimeSeries.tsx:24-27 | one `{date: ts, count: value}` per point, in point order (see also `src/components/statistics/analytics/Optins.tsx:23-26`) |
| TimeSeries.FindOption | src/components/statistics/analytics/TimeSeries.tsx:168 | the option found has the selected value; there is none exactly when no option has it |
| TimeSeries.InitialSelectionValid | src/components/statistics/analytics/TimeSeries.tsx:36-46 | the defaults are `day`, `install_date` and a line chart, and the default metric is one of the options |
| TimeSeries.RenderCases | src/components/statistics/analytics/TimeSeries.tsx:168-191 | `Invalid metric selected.` exactly for a metric no option has; the loading placeholder exactly for a known metric with no points; otherwise the chart of the transformed points under the option's label |
| TopCountries.PercentageDescTotalPreorder | src/components/statistics/analytics/TopCountriesList.tsx:21 | the comparator `b.percentage - a.percentage` is a total preorder |
| TopCountries.SortedByShare | src/components/statistics/analytics/TopCountriesList.tsx:20-21 | the sorted copy is non-increasing by percentage |
| TopCountries.Top10Shape | src/components/statistics/analytics/TopCountriesList.tsx:18-24 | `top10` has `min(10, data.length)` entries, non-increasing by percentage, all taken from `data`, and no entry left out has a higher percentage than one kept |
| TopCountries.Top10Ordered | src/components/statistics/analytics/TopCountriesList.tsx:20-22 | `top10` is non-increasing by percentage |
| TopCountries.Top10Taken | src/components/statistics/analytics/TopCountriesList.tsx:20-22 | every entry of `top10` comes from `data`, counted with multiplicity |
| TopCountries.Top10Dominates | src/components/statistics/analytics/TopCountriesList.tsx:20-22 | no entry left out ranks above an entry kept |
| AliasChips.SliceEnd | src/components/AliasChips.tsx:33 | the end `slice(0, end)` stops at: `end` capped at the length, or counted from the back when negative |
| AliasChips.RemainingCount | src/components/AliasChips.tsx:34 | the remaining count is never negative; for a non-negative limit it is positive exactly when there are more aliases than the limit (see also line 57) |
| AliasChips.RenderShape | src/components/AliasChips.tsx:15-19 | nothing is rendered exactly for missing or empty aliases; otherwise the popover lists the pieces between the `\|`s, in order, the chips are a prefix of them, and the `+N more` chip appears exactly when some are hidden, with N the number hidden (see also lines 33-34, lines 57-59, line 86) |
| AliasChips.VisibleCount | src/components/AliasChips.tsx:12 | the chips are the first `maxVisible` aliases, three by default (see also line 33) |
| AliasChips.ProfileAliasesBack | src/utils/profileMappers.ts:18 | the chips of a profile's joined aliases list the model's aliases again, when none holds a `\|` (see also `src/components/AliasChips.tsx:19`, `src/components/AliasChips.tsx:86`) |
| PropertyList.ChunkProperties | src/components/Profile.tsx:115-118 | the stride-four loop returns the chunks of the list (see also `src/components/DetailPanel.tsx:98-101`) |
| PropertyList.ChunksStep | src/components/Profile.tsx:116-117 | one turn of the loop takes the next slice of at most four and moves on by four |
| PropertyList.FilterPropertiesExactly | src/components/Profile.tsx:112-114 | the filtered list holds exactly the rows whose value is neither nullish nor `""`, and is never longer (see also `src/components/DetailPanel.tsx:95-97`) |
| PropertyList.FilterKeepsRow | src/components/Profile.tsx:112-114 | a given row is kept exactly when it has a value |
| PropertyList.FilterPropertiesOrder | src/components/Profile.tsx:112-114 | the filter keeps the order of the rows |
| PropertyList.ShownIsNotTruthy | src/components/Profile.tsx:113 | `0` and `false` are shown; `null`, `undefined` and `""` are dropped |
| PropertyList.ChunksShape | src/components/Profile.tsx:115-118 | the chunks put back together are the list; all but the last have four rows, the last one to four; there are `ceil(n / 4)` of them |
| PropertyList.ChunksUnique | src/components/DetailPanel.tsx:98-101 | any cutting into runs of four with a shorter last one is the one the loop produces |
| PropertyList.ColorModesTextEmpty | src/components/Profile.tsx:76 | the `, `-joined colour modes are empty exactly when there are none, or one empty one |
| ProfilePage.ProfileProperties | src/components/Profile.tsx:60-110 | the page lists seventeen rows |
| ProfilePage.ProfileColumns | src/components/Profile.tsx:112-118 | the columns are the chunks of the rows that have a value |
| ProfilePage.ProfileRowsShown | src/components/Profile.tsx:60-114 | the author and standby-power rows are always shown, a power of 0 included; the maximum-power and standby-on rows exactly when set; the colour-modes row unless there are none |
| ProfilePage.ProfileColumnsShape | src/components/Profile.tsx:112-118 | the columns put back together are the shown rows; all but the last hold four; there are one to five columns |
| ProfilePage.HasPlotsIffImage | src/components/Profile.tsx:127 | a loaded profile offers the graphs tab exactly when one of its download links is a `.png` image (see also `src/loaders/powerProfileLoader.ts:30-33`) |
| DetailPanel.MapFileNameToColorMode | src/components/DetailPanel.tsx:171-184 | succeeds exactly when the name before the first `.` is `hs`, `color_temp` or `brightness`, with the mode of that name; otherwise fails with `Unknown color mode: <name>` |
| DetailPanel.ColorModeRoundTrip | src/components/DetailPanel.tsx:171-184 | a file named after a colour mode, with any extension or none, maps back to that mode |
| DetailPanel.DetailPlotsMatchLoader | src/components/DetailPanel.tsx:149-156 | the panel's plots fail exactly when some `.png` link is not named after a colour mode; otherwise they are the loader's plots one for one, each with the mode its label names (see also `src/loaders/powerProfileLoader.ts:30-37`) |
| DetailPanel.DetailProperties | src/components/DetailPanel.tsx:55-93 | the panel lists thirteen property rows |
| DetailPanel.DetailColumns | src/components/DetailPanel.tsx:95-101 | the panel's columns are its shown rows cut into runs of four |
| DetailPanel.DetailRowsWithoutFetch | src/components/DetailPanel.tsx:64 | before the full profile has arrived, every row read from it (`fullProfile?.…`) is dropped, and the manufacturer row is always shown (see also line 66, lines 74-92, lines 95-97) |
| DetailPanel.DetailOwnRows | src/components/DetailPanel.tsx:56-73 | the rows taken from the grid row are the same whether or not the full profile has arrived |
| DetailPanel.DetailColumnsShape | src/components/DetailPanel.tsx:95-101 | the columns flatten back to the shown rows, all but the last hold four, and there are one to four of them |
| FormUrlEncoded.EncodeChar | src/components/LibraryGrid.tsx:100 | a character's encoding is never empty and holds no separator |
| FormUrlEncoded.Encode | src/components/LibraryGrid.tsx:100 | an encoded name or value holds no separator and is never shorter |
| FormUrlEncoded.EncodePlain | src/components/statistics/analytics/SensorDimensions.tsx:56 | text without characters to escape is left as it is (see also line 61) |
| FormUrlEncoded.DecodeEncodeChar | src/components/LibraryGrid.tsx:100 | decoding undoes one character's encoding (see also line 310) |
| FormUrlEncoded.DecodeEncode | src/components/LibraryGrid.tsx:100 | decoding undoes the encoding (see also line 310) |
| FormUrlEncoded.Get | src/components/LibraryGrid.tsx:75 | `get` finds nothing exactly when no pair has the name; what it finds is a pair of the list (see also `src/components/statistics/analytics/SensorDimensions.tsx:38`) |
| FormUrlEncoded.GetFirst | src/components/LibraryGrid.tsx:75 | `get` answers with the first pair of the name |
| FormUrlEncoded.Without | src/components/statistics/analytics/SensorDimensions.tsx:50 | dropping a name keeps exactly the pairs with other names |
| FormUrlEncoded.SetGet | src/components/statistics/analytics/SensorDimensions.tsx:50 | after `set`, `get` gives the new value, the name occurs once, and the other pairs are as before |
| FormUrlEncoded.WithoutIdempotent | src/components/statistics/analytics/SensorDimensions.tsx:50 | dropping a name twice is dropping it once |
| FormUrlEncoded.SetKeepsOthers | src/components/statistics/analytics/SensorDimensions.tsx:49-50 | `set` on one name leaves `get` of every other name unchanged |
| FormUrlEncoded.GetWithout | src/components/statistics/analytics/SensorDimensions.tsx:50 | dropping one name leaves `get` of every other name unchanged |
| FormUrlEncoded.PairText | src/components/LibraryGrid.tsx:100 | an encoded pair holds no `&` |
| FormUrlEncoded.PairTexts | src/components/LibraryGrid.tsx:100 | one encoded text per pair, in order |
| FormUrlEncoded.BreakAtFirst | src/components/LibraryGrid.tsx:310 | splitting at the first separator recovers the parts around it |
| FormUrlEncoded.ParsePairTexts | src/components/LibraryGrid.tsx:100 | parsing the encoded pieces gives the pairs back (see also line 310) |
| FormUrlEncoded.ParseSerialize | src/components/LibraryGrid.tsx:100 | parsing a serialised query gives exactly the pairs serialised, in order (see also line 310) |
| FormUrlEncoded.JoinHead | src/components/LibraryGrid.tsx:100 | a join starts with its first part |
| FormUrlEncoded.SerializeInjective | src/components/LibraryGrid.tsx:308-309 | equal query strings come from equal pair lists, so the text comparison compares the parameters |
| FormUrlEncoded.SetAbsent | src/components/LibraryGrid.tsx:99 | `set` of a name not present appends the pair |
| FormUrlEncoded.WithoutAbsent | src/components/LibraryGrid.tsx:99 | dropping a name not present changes nothing |
| FormUrlEncoded.SetPresent | src/components/LibraryGrid.tsx:99 | with distinct names, `set` of a present name replaces its value in place |
| FormUrlEncoded.GetDistinct | src/components/LibraryGrid.tsx:75 | with distinct names, `get` finds the only pair of the name |
| FormUrlEncoded.SetAllDistinct | src/components/LibraryGrid.tsx:99 | with distinct names throughout, setting each pair in turn appends them all in order |
| FormUrlEncoded.SetAllSorted | src/components/LibraryGrid.tsx:99 | setting pairs sorted by name, after names that sort no later, keeps the list sorted with each name once |
| FormUrlEncoded.SortedTail | src/components/LibraryGrid.tsx:99 | the rest of a sorted list is sorted |
| FormUrlEncoded.SetSorted | src/components/LibraryGrid.tsx:99 | `set` of a name that sorts last keeps the list sorted and distinct, changing only that name's position |
| FormUrlEncoded.SetPresentSorted | src/components/LibraryGrid.tsx:99 | replacing a value in place keeps the names and their order |
| FormUrlEncoded.SetAbsentSorted | src/components/LibraryGrid.tsx:99 | appending a new, last-sorting name keeps the list sorted and distinct |
| FormUrlEncoded.SetMembers | src/components/LibraryGrid.tsx:99 | after `set` every pair was there before or is the new one |
| FormUrlEncoded.SetAllMembers | src/components/LibraryGrid.tsx:99 | after setting pairs every pair was there before or is one of them |
| FormUrlEncoded.SetAllHasNames | src/components/LibraryGrid.tsx:99 | after setting pairs every earlier name and every set name is present |
| FormUrlEncoded.SetAllKeepsName | src/components/LibraryGrid.tsx:99 | a name present stays present however many pairs are set |
| FormUrlEncoded.GetSomeHas | src/components/LibraryGrid.tsx:75 | what `get` finds is a pair of the list |
| JsValues.IntToString | src/components/LibraryGrid.tsx:66 | `String` of a number is never empty |
| JsValues.ToString | src/components/LibraryGrid.tsx:61 | `String` of a string is the string itself, and of a number is never empty (see also line 66) |
| JsValues.ElementStrings | src/components/LibraryGrid.tsx:61 | `map(String)` gives one string per element |
| JsValues.TruthyToStringNonEmpty | src/components/statistics/StatisticsAggregator.tsx:56-58 | a truthy value other than an array never becomes the empty key |
| JsValues.ArrayIndex | src/components/statistics/StatisticsAggregator.tsx:47-48 | a key read as an array index is the canonical decimal text of that index |
| JsValues.CanonicalDigits | src/components/statistics/StatisticsAggregator.tsx:47-48 | a string of digits without a leading zero is the text of its value |
| JsValues.CanonicalNonZero | src/components/statistics/StatisticsAggregator.tsx:47-48 | digits without a leading zero are a positive number |
| JsValues.Member | src/components/statistics/StatisticsAggregator.tsx:47-48 | `path in current` on an object holds exactly for its own keys |
| JsValues.MemberIndex | src/components/statistics/StatisticsAggregator.tsx:47-48 | an array's index written in decimal reads that element |
| Strings.Split | src/components/AliasChips.tsx:19 | `split` always gives at least one piece (see also `src/components/DetailPanel.tsx:172`) |
| Strings.Includes | src/components/LibraryGrid.tsx:212 | `includes` holds exactly when the needle occurs at some position |
| Strings.IndexOf | src/components/statistics/DimensionCounts.tsx:194 | the match found is an occurrence with none earlier; there is none exactly when the pattern never occurs |
| Strings.ReplaceFirstAt | src/components/statistics/DimensionCounts.tsx:194 | replacing a string pattern changes its first occurrence only |
| Strings.ReplaceAllChar | src/components/statistics/DimensionCounts.tsx:195 | `replace(/_/g, " ")` changes every `_` and nothing else |
| Strings.ToLower | src/components/LibraryGrid.tsx:212 | lower-casing works character by character and keeps the length |
| Strings.CapitalizeWords | src/components/statistics/DimensionCounts.tsx:196 | exactly the characters at a word start are upper-cased |
| Strings.NatToString | src/components/statistics/StatisticsAggregator.tsx:72 | a count's text is digits, never empty, with no leading zero unless it is `0` |
| Strings.NatToStringRoundTrip | src/components/statistics/StatisticsAggregator.tsx:72 | reading a count's text back gives the count |
| Strings.StrLeTotal | src/components/LibraryGrid.tsx:99 | the string comparison orders any two strings (see also line 150) |
| Strings.StrLeTrans | src/components/LibraryGrid.tsx:99 | the string comparison is transitive (see also line 150) |
| Strings.StrLeAntisym | src/components/LibraryGrid.tsx:99 | strings that compare both ways are equal (see also line 150) |
| Strings.SplitPiecesFree | src/components/AliasChips.tsx:19 | no piece of a split holds the separator |
| Strings.SplitNoSeparator | src/components/DetailPanel.tsx:172 | text without the separator splits into itself |
| Strings.SplitAfterFirst | src/components/DetailPanel.tsx:172 | splitting at a first separator gives the part before it, then the split of the rest |
| Strings.SplitJoin | src/components/AliasChips.tsx:19 | splitting a join of separator-free parts gives the parts back |
| Strings.JoinSplit | src/components/AliasChips.tsx:19 | joining the pieces of a split gives the text back |
| Strings.JoinCons | src/components/LibraryGrid.tsx:61 | a join is its first part, the separator and the join of the rest |
| Strings.SplitHead | src/components/DetailPanel.tsx:172 | the first piece is a prefix without the separator that ends at the text's end or at a separator |
| Sorting.Insert | src/components/LibraryGrid.tsx:61 | inserting one element adds it to the elements (see also line 99) |
| Sorting.SortBy | src/components/LibraryGrid.tsx:61 | sorting permutes the list (see also line 99, `src/components/statistics/StatisticsAggregator.tsx:64`) |
| Sorting.InsertSorted | src/components/LibraryGrid.tsx:61 | inserting into a sorted list under a total preorder keeps it sorted (see also line 99) |
| Sorting.SortBySorted | src/components/LibraryGrid.tsx:61 | under a total preorder the result is sorted (see also line 99, `src/components/statistics/StatisticsAggregator.tsx:64`) |
| Sorting.SortedHeadLeast | src/components/LibraryGrid.tsx:61 | a sorted list starts with an element that is at or before every element |
| Sorting.SortedUnique | src/components/LibraryGrid.tsx:61 | two sorted permutations of one list under a total order are equal |
| Sorting.KeyLeTotalPreorder | src/components/LibraryGrid.tsx:99 | comparing by a string key is a total preorder (see also line 150) |
| Sorting.StrLeTotalOrder | src/components/LibraryGrid.tsx:61 | the string comparison is a total order |
| Sorting.SortedByKeyUnique | src/components/LibraryGrid.tsx:99 | two lists sorted by a key, each with distinct keys and the same elements, are equal (see also line 150) |
| Sorting.SortedByKeyHeads | src/components/LibraryGrid.tsx:99 | such lists start with the same element (see also line 150) |
| Sorting.SortedByKeyTails | src/components/LibraryGrid.tsx:99 | such lists continue as lists of the same kind (see also line 150) |
| Sorting.DistinctKeysInsert | src/components/LibraryGrid.tsx:99 | putting an element of a new key anywhere keeps the keys distinct |
| Sorting.DistinctKeysPermutation | src/components/LibraryGrid.tsx:99 | a permutation of a list with distinct keys has distinct keys (see also `src/components/statistics/StatisticsAggregator.tsx:62-64`) |
| Sorting.DistinctKeysTail | src/components/LibraryGrid.tsx:99 | the rest of a list with distinct keys has distinct keys, none the first one's |
| Sorting.Take | src/components/statistics/StatisticsAggregator.tsx:73 | `slice(0, n)` is a prefix of length `n`, or the whole list when it is shorter |
| Sorting.TakeSorted | src/components/statistics/analytics/TopCountriesList.tsx:21-22 | the kept prefix of a sorted list is sorted and comes at or before every element left out |
| Lists.Map | src/components/LibraryGrid.tsx:61 | `map` gives the function of each element, in order |
| Lists.Choose | src/components/Profile.tsx:112-114 | filtering and mapping never lengthens the list |
| Lists.ChooseMembers | src/components/Profile.tsx:112-114 | what is kept is exactly what the function keeps of some element |
| Lists.MapMember | src/components/LibraryGrid.tsx:61 | the image of an element is in the mapped list |
| Lists.MapConcat | src/components/LibraryGrid.tsx:61 | mapping works piece by piece |
| Lists.ChooseConcat | src/components/Profile.tsx:112-114 | filtering works piece by piece, so order is kept |
| Lists.ChoosePermutation | src/components/LibraryGrid.tsx:90-96 | filtering a permutation gives a permutation of the filtered list |
| Lists.MapPermutation | src/components/LibraryGrid.tsx:61 | mapping a permutation gives a permutation of the mapped list |
| Lists.ChooseDistinct | src/components/LibraryGrid.tsx:90-96 | when the kept values of different elements have different keys, the result has distinct keys |

## Left out

- Network requests: the library, analytics, time-series, profile and download requests are all fetches. The model takes their resolved results as inputs. The fetch code in `src/api`, the loaders' `fetchJson`, the sub-profile requests and `DetailPanel`'s `useFetchPowerProfile` are not part of this model.
- React scheduling: when effects run and how functional state updates are batched. The reconciliation steps of the grid and the metric selectors are explicit transitions or class methods that run one at a time.
- Rendering: JSX, the MUI charts and components, icons (including the `ColorMode.EFFECT` icon of the grid's colour-mode cell), layout and theming. Only the values handed to the components are modelled.
- Dates and clocks: `new Date(...)`, `toISOString`, `toLocaleDateString` and the date defaults of the time-series view. The creation and update dates come in as opaque display values, and time-series timestamps as opaque strings.
- Floating point: percentages and time-series values are Dafny `real`, so `NaN` and rounding are not modelled. Every other JavaScript number is an integer in the model: `JsValues.Num` holds an `int`, and so do the power fields of the listing and the profile (`maxPower`, `standbyPower`, `standbyPowerOn` in `LibraryApi` and `ProfileMappers`, typed `number` at `library.api.ts:24-26`). A fractional power such as `0.3`, and the bucket text `String(0.3)` of the aggregator (`StatisticsAggregator.tsx:58`), are not represented; the model's `String` is the decimal text of an integer. Number formatting (`toFixed`, `toLocaleString`) is left out as presentation.
- String order: `localeCompare` and the default `sort()` of strings are both modelled by `Strings.StrLe`, the lexicographic order of Unicode code points. Locale-specific collation is not modelled. The default `sort()` compares UTF-16 code units, which orders characters outside the Basic Multilingual Plane (such as emoji) before `U+E000`–`U+FFFF` where `StrLe` puts them after; for such strings `LibraryGrid.NormalizeFilterVal` (`LibraryGrid.tsx:61`) and the dimension lists (`DimensionCounts.tsx:83`, `SensorDimensions.tsx:80`) can differ from the source.
- DimensionCounts.MetricValue: reads any metric name other than `installation_count`, `count` and `percentage` as a missing value, i.e. `0`. The source takes the metric from the URL unchecked (`src/components/statistics/analytics/SensorDimensions.tsx:38`); for `key_name` or `dimension` `item[selectedMetric]` is a string, the sort's subtraction gives `NaN` and the chart value is that string, none of which the model represents.
- Case mapping: `toLowerCase` and `toUpperCase` are modelled for ASCII letters only, and word starts (`\b\w`) for ASCII word characters.
- Percent-encoding: `URLSearchParams` encodes with a small invertible stand-in that escapes the characters the parser gives a meaning to. UTF-8 byte encoding and the escaping of other characters are not modelled.
- `encodeURIComponent` in the author page's library link, and the link itself, are presentation and are not modelled.
- AuthorPage: the page is modelled over the library query's output, profiles whose `author` is a record with a `githubUsername` and an `authors` table keyed by username (`LibraryQuery.QueryFn`, `src/queries/library.query.ts:55-84`). The `LibraryContext.tsx` that `Author.tsx:22-27` imports through `useLibrary()` provides neither: its `LibraryContextType` (`src/context/LibraryContext.tsx:7-12`) has no `authors` field and each profile's `author` is the raw `model.author` (`LibraryContext.tsx:34`). Over that context, `authors[authorName]` (`Author.tsx:35`) indexes `undefined`, which throws, and the username filter (`Author.tsx:31`) reads `githubUsername` off a string, which never equals the route name; the model does not represent that pairing of the two files.
- Object key order: the aggregator's buckets and the author page's device-type sections (`AuthorPage.DeviceTypeSections`) are listed in first-seen order. JavaScript lists integer-like keys first, so the model promises nothing about the order of equal counts.
- Prototype keys: plain JavaScript objects used as dictionaries are modelled as Dafny maps, so names an object inherits (`constructor`, `toString`, `__proto__` and the like) behave as ordinary keys in the model. In the source they do not: `path in current` (`StatisticsAggregator.tsx:47`) is true for them; `counts[value]` (`StatisticsAggregator.tsx:58`) starts from the inherited function and builds a text key; `(grouped[k] ||= []).push` (`Author.tsx:41`) and `(acc[k] ??= []).push` (`DimensionCounts.tsx:30`, `SensorDimensions.tsx:27`) finds the inherited value and throws; `authors[name] ??=` (`library.query.ts:73`) never stores the author. `JsValues.Member`, `StatisticsAggregator.Bump`, `Grouping.GroupBy`, `KeyedIndex.Index` and `KeyedIndex.FirstIndex` state the ordinary behaviour for such keys.
- `localStorage` and `JSON.parse` for the grid's column visibility (`LibraryGrid.tsx:141-144, 320`) are browser storage and not modelled.
- `src/types/ColorMode.ts` and the analytics API types are not part of this model. The colour-mode texts are taken to be the Home Assistant names `hs`, `color_temp` and `brightness`.
- The model JSON's `measureDescription` is an input that may be missing. The raw JSON download itself is a fetch.
- `LibraryContext.ModelsMissing`: the text of the `TypeError` thrown when a manufacturer has no `models` is the V8 message. Other engines word it differently.
- `AliasChips.Render`: `maxVisible` is an integer. A fractional `maxVisible` is not modelled.
- `SensorDimensions.LinksCarryMetric`: stated only for metrics the encoding leaves unchanged and dimensions without a `?`. Other metrics round-trip through `FormUrlEncoded.ParseSerialize` but not as a literal `metric=` text.
- `SensorDimensions.SensorDimensionsPage.DetailLink` and `BackLink` are plain functions of the selected metric, so their contracts are stated through `LinksCarryMetric`.
- `AuthorPage.ContributionText` carries no contract of its own. `ContributionPlural` states what it promises.
- Calendar bucketing (`ProfilesOverTime.tsx`, `WeeklyContributions.tsx`), the supporter ticker, the country-name display (`Intl.DisplayNames`) and the grid configuration pages are outside the modelled core.
