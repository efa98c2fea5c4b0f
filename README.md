# Copilot metrics store and dashboard aggregations, in Dafny

This project models the data layer of a dashboard for GitHub Copilot usage metrics. The layer is the composable
`useCopilotMetrics` (`src/composables/useCopilotMetrics.ts`). It covers:

- **the store**: the records (one per user per day), and the `loading`, `error` and `isDataLoaded` flags, with the
  operations that fill and clear them. `loadMetrics` fetches a file, `loadMetricsFromText` takes uploaded text,
  `parseMetricsFromText` reads line-delimited JSON, and `clearMetrics` empties the store.
- **the six derived views** computed from the records:
  - `usersSummary`: one row per user, ordered by interactions;
  - `dailyMetrics`: one row per day, ordered by day;
  - `featureMetrics`: one row per feature, ordered by code generated;
  - `ideMetrics`: one row per editor, ordered by number of users;
  - `languageMetrics`: one row per language, ordered by code generated;
  - `globalStats`: the overall totals and the report period.
- **the helpers**: the per-user filter `getUserMetrics`, and the display-name helpers `formatFeatureName`,
  `formatIdeName` and the language capitalisation.

Layout, one module per file:

| file | module | what it holds |
|---|---|---|
| `wrappers.dfy` | `Wrappers` | `Option` and `Result` |
| `text.dfy` | `Text` | `trim`, `split('\n')`, decimal rendering, string order |
| `folds.dfy` | `Folds` | sums, groups, key order, key sets, flattening |
| `sorting.dfy` | `Sorting` | a stable sort by a key |
| `rates.dfy` | `Rates` | the acceptance rate |
| `metric_types.dfy` | `MetricTypes` | the record and row types |
| `display_names.dfy` | `DisplayNames` | the name formatters |
| `ingestion.dfy` | `Ingestion` | parsing and the `MetricsStore` class |
| `users_view.dfy` | `UsersView` | `usersSummary` and `getUserMetrics` |
| `daily_view.dfy` | `DailyView` | `dailyMetrics` |
| `feature_view.dfy` | `FeatureView` | `featureMetrics` |
| `ide_view.dfy` | `IdeView` | `ideMetrics` |
| `language_view.dfy` | `LanguageView` | `languageMetrics` |
| `global_stats.dfy` | `GlobalView` | `globalStats` |
| `conservation.dfy` | `Conservation` | how the views agree with each other |

How the model is built:

- **The store** is a class whose methods update its fields, as the module-level refs are updated in place.
- **Each view** is a method that follows the source's loops. It uses a `map` accumulator and a `seq` of keys that
  records the insertion order of the JavaScript `Map`. Each loop body is a method of its own. Each view method is
  proved equal to a pure specification function of the records (`…Of`).
- **The source's promises** are proved as lemmas about those functions:
  - what each row means;
  - that each ordering is a stable sort that neither adds nor drops rows;
  - that the totals are conserved from the records into every view.
- **`JSON.parse`** is the parameter `parse`, which returns `None` where JSON.parse would throw.
- **The network response** is the parameter `fetched`.

## Model

All source paths are in `src/composables/useCopilotMetrics.ts`.

| member | source | states |
|---|---|---|
| Text.Trim | src/composables/useCopilotMetrics.ts:79 | `trim()` cuts only whitespace, from both ends only, and what it keeps is empty or starts and ends with non-whitespace |
| Text.TrimEmptyIffAllSpace | src/composables/useCopilotMetrics.ts:79 | a string trims to empty exactly when it is all whitespace |
| Text.Split | src/composables/useCopilotMetrics.ts:79 | `split('\n')` gives at least one piece and no piece contains a line feed |
| Text.JoinSplit | src/composables/useCopilotMetrics.ts:79 | joining the pieces of `split('\n')` with line feeds gives the text back (splitting loses nothing) |
| Text.SplitJoin | src/composables/useCopilotMetrics.ts:79 | splitting a join of line-feed-free pieces gives the pieces back |
| Text.LessIsStrictTotalOrder | src/composables/useCopilotMetrics.ts:119 | the `>` comparison of day strings is irreflexive, total, asymmetric and transitive |
| Text.NotAfterIsTotalPreorder | src/composables/useCopilotMetrics.ts:207 | the day comparator is reflexive, total, transitive and antisymmetric, so equal-sorting days are equal |
| Text.NatToString | src/composables/useCopilotMetrics.ts:89 | the rendered line number is a non-empty string of decimal digits with no leading zero |
| Text.DecimalRoundTrip | src/composables/useCopilotMetrics.ts:89 | reading the rendered line number gives the number back |
| Text.NatToStringInjective | src/composables/useCopilotMetrics.ts:89 | different line numbers render differently |
| Folds.KeyOrder | src/composables/useCopilotMetrics.ts:107-110 | the keys of a `Map` filled in record order are distinct, and a key is among them exactly when some record carries it |
| Folds.KeyOrderFirstSeen | src/composables/useCopilotMetrics.ts:107-155 | the keys are in order of first occurrence: when one key comes before another, every record carrying the later key is preceded by a record carrying the earlier one |
| Sorting.Sort | src/composables/useCopilotMetrics.ts:164 | `sort` returns a permutation of its input (same multiset) |
| Sorting.SortSorted | src/composables/useCopilotMetrics.ts:164 | with a comparator that is a total preorder, the output is ordered by it |
| Sorting.SortStable | src/composables/useCopilotMetrics.ts:164 | the sort is stable: the elements with any one key keep their input order |
| Sorting.SortSameElements | src/composables/useCopilotMetrics.ts:164 | an element is in the output exactly when it is in the input |
| Sorting.SortSum | src/composables/useCopilotMetrics.ts:164 | sorting leaves every column total unchanged |
| Sorting.SortDistinctBy | src/composables/useCopilotMetrics.ts:164 | rows that differ in some field still differ after sorting |
| Sorting.AtLeastIsTotalPreorder | src/composables/useCopilotMetrics.ts:164 | the descending-count comparator `b - a` is a reflexive total preorder |
| Rates.AcceptanceRate | src/composables/useCopilotMetrics.ts:158-161 | the rate is 0 when nothing was generated; otherwise it is 100·accepted/generated rounded half up, as `2g·r ≤ 200a + g < 2g·(r+1)`; it is at most 100 when accepted ≤ generated |
| Rates.RateIsTheRoundedRatio | src/composables/useCopilotMetrics.ts:158-161 | any percentage within the half-up rounding window is the rate (the rate is unique) |
| DisplayNames.AsciiUpper | src/composables/useCopilotMetrics.ts:385 | `toUpperCase` maps `a`–`z` to `A`–`Z`, leaves every other character alone and never yields a lower-case letter |
| DisplayNames.UnderscoresToSpaces | src/composables/useCopilotMetrics.ts:385 | `replace(/_/g, ' ')` turns each underscore into a space and keeps every other character and the length |
| DisplayNames.CapitalizeWords | src/composables/useCopilotMetrics.ts:385 | `replace(/\b\w/g, …)` upper-cases exactly the word characters that start a word and keeps the length |
| DisplayNames.CapitalizeFirst | src/composables/useCopilotMetrics.ts:396 | `charAt(0).toUpperCase() + slice(1)` upper-cases the first character and keeps the rest and the length |
| DisplayNames.FormatFeatureName | src/composables/useCopilotMetrics.ts:377-386 | a feature in the table gets the table's name; any other feature keeps its length, each underscore becomes a space, a character is upper-cased exactly when it starts a word (after the start, a non-word character or an underscore), and no underscore remains |
| DisplayNames.FormatIdeName | src/composables/useCopilotMetrics.ts:388-397 | an editor in the table gets the table's name; any other editor keeps its length, with its first character upper-cased and the rest unchanged |
| DisplayNames.FormatLanguageName | src/composables/useCopilotMetrics.ts:307 | a language keeps its length, with its first character upper-cased and the rest unchanged |
| DisplayNames.CapitalizeWordsIdempotent | src/composables/useCopilotMetrics.ts:385 | capitalising word starts twice is capitalising them once |
| DisplayNames.FeatureTableValuesAreFixed | src/composables/useCopilotMetrics.ts:378-384 | no display name of the feature table is itself a table key, and formatting one again gives it back |
| DisplayNames.FeatureNameIdempotent | src/composables/useCopilotMetrics.ts:377-386 | formatting a formatted feature name changes nothing |
| DisplayNames.IdeNameIdempotent | src/composables/useCopilotMetrics.ts:388-397 | formatting a formatted editor name changes nothing |
| DisplayNames.LanguageNameIdempotent | src/composables/useCopilotMetrics.ts:307 | capitalising a capitalised language name changes nothing |
| DisplayNames.DisplayNamesCanCoincide | src/composables/useCopilotMetrics.ts:235-237 | two different raw features (`code_completion` and `Code Completion`) get the same display name, so feature rows are unique by raw key only |
| Ingestion.NonBlankLines | src/composables/useCopilotMetrics.ts:79 | every line kept is a non-blank line of the trimmed text split at line feeds, and every non-blank line of that split is kept |
| Ingestion.NonBlankLinesIsFilter | src/composables/useCopilotMetrics.ts:79 | the kept lines are the `filter` of the pieces: it distributes over concatenation and keeps a single piece exactly when it is non-blank, so the kept lines are in file order, each as often as it occurs |
| Ingestion.TrimmedLineIsKept | src/composables/useCopilotMetrics.ts:79 | the line filter keeps exactly the lines whose `trim()` is non-empty |
| Ingestion.NoLinesIffBlankText | src/composables/useCopilotMetrics.ts:79-83 | the text has no usable line exactly when it is all whitespace |
| Ingestion.ParseAll | src/composables/useCopilotMetrics.ts:85-91 | either every line parses and the records are the parses in order, or the result is the 1-based number of the first line that fails, all earlier lines having parsed |
| Ingestion.ParseLines | src/composables/useCopilotMetrics.ts:81-91 | no lines is the empty-file error; otherwise the records or the first failing line, as for `ParseAll` |
| Ingestion.ParseText | src/composables/useCopilotMetrics.ts:79-91 | the empty-file error is returned exactly for all-whitespace text; success gives one record per non-blank line; a line error names the first non-blank line that fails, counted from 1 |
| Ingestion.ErrorMessage | src/composables/useCopilotMetrics.ts:80-90 | an empty file gives 'Le fichier est vide'; a failing line gives the prefix 'Erreur de parsing à la ligne ' followed by decimal digits, with no leading zero, that read back as the line number |
| Ingestion.LineErrorMessagesDiffer | src/composables/useCopilotMetrics.ts:89 | the line-error message determines the line number |
| Ingestion.MetricsStore.constructor | src/composables/useCopilotMetrics.ts:34-38 | the store starts with the restored records, `isDataLoaded` true exactly when there are some, not loading and no error |
| Ingestion.MetricsStore.ParseMetricsFromText | src/composables/useCopilotMetrics.ts:78-96 | on success the records are replaced and `isDataLoaded` set; on failure the failure is returned and records and `isDataLoaded` are unchanged (no partial update); `loading` and `error` untouched |
| Ingestion.MetricsStore.LoadMetricsFromText | src/composables/useCopilotMetrics.ts:63-75 | afterwards not loading; on success the new records with no error; on failure the old records and `isDataLoaded`, with `error` holding 'Le fichier est vide' or 'Erreur de parsing à la ligne N' |
| Ingestion.MetricsStore.LoadMetrics | src/composables/useCopilotMetrics.ts:42-60 | a network error or a non-ok response leaves records and `isDataLoaded` unchanged and sets the matching message; an ok response behaves as loading its body as text; never left loading |
| Ingestion.MetricsStore.ClearMetrics | src/composables/useCopilotMetrics.ts:99-103 | no records, `isDataLoaded` false, no error, `loading` unchanged |
| UsersView.LastDay | src/composables/useCopilotMetrics.ts:119-121 | the last active day is one of the user's days and no day of the user comes after it |
| UsersView.UserRows | src/composables/useCopilotMetrics.ts:107-162 | one row per login, row j for the j-th login met; its id and editor are those of the login's first record, its counts and lines are sums over the login's records, its active days the number of those records, its last day the latest of their days, and its rate that of its totals |
| UsersView.UserMetrics | src/composables/useCopilotMetrics.ts:354-356 | `getUserMetrics` returns only records of the login, all from the store, and is empty exactly when the login has no record |
| UsersView.UserMetricsIsFilter | src/composables/useCopilotMetrics.ts:354-356 | the filter distributes over concatenation and keeps a single record exactly when it is the login's (an order-preserving filter) |
| UsersView.UserTallySnoc | src/composables/useCopilotMetrics.ts:112-127 | a further record of a known user adds its counts and lines, one active day, and advances the last day only to a later day |
| UsersView.UserTallySingleton | src/composables/useCopilotMetrics.ts:128-151 | a user's first record opens the row with its counts, one active day, its day, its first editor or 'unknown', and its lines |
| UsersView.SumIdeLoc | src/composables/useCopilotMetrics.ts:124-127 | the editor loop adds up the lines added and suggested over the record's editor breakdowns |
| UsersView.AddUserRecord | src/composables/useCopilotMetrics.ts:110-152 | after one more record every accumulator is the tally of its login's records so far, and the key order is the first-seen order |
| UsersView.AccumulateUsers | src/composables/useCopilotMetrics.ts:107-153 | after the loop the map holds, for each login, the tally of all of its records, keyed in first-seen order |
| UsersView.FillRates | src/composables/useCopilotMetrics.ts:156-162 | the second loop sets each row's rate from the row's own totals and changes nothing else |
| UsersView.ComputeUsersSummary | src/composables/useCopilotMetrics.ts:106-165 | the computed `usersSummary` equals the specification `UsersSummaryOf` |
| UsersView.UserRowIsTally | src/composables/useCopilotMetrics.ts:106-165 | every row of the view is the rated tally of its login's records, and that login has records |
| UsersView.UserRowFirstSeen | src/composables/useCopilotMetrics.ts:139-148 | a row's `user_id` and `primary_ide` are those of the login's first record |
| UsersView.UserRowTotals | src/composables/useCopilotMetrics.ts:113-127 | a row's totals and lines are the sums over its login's records, `active_days` counts those records, and the rate is that of the row's totals |
| UsersView.UserRowLastDay | src/composables/useCopilotMetrics.ts:119-121 | a row's last active day is the day of one of its records and no record of the login is later |
| UsersView.EveryUserHasRow | src/composables/useCopilotMetrics.ts:109-153 | every login in the records has a row |
| UsersView.OneRowPerUser | src/composables/useCopilotMetrics.ts:107-153 | no two rows share a login, and there are as many rows as distinct logins |
| UsersView.UsersOrdered | src/composables/useCopilotMetrics.ts:164 | interactions never increase down the list, the rows are a permutation of the unsorted rows, and ties keep first-seen order |
| DailyView.DayRows | src/composables/useCopilotMetrics.ts:179-206 | one row per day, row j for the j-th day met; its active users are the number of distinct logins among that day's records, its counts are sums over those records, and its rate is that of its totals |
| DailyView.DayTallySnoc | src/composables/useCopilotMetrics.ts:182-186 | a further record of a known day adds its login to the day's set and its counts to the totals |
| DailyView.DayTallySingleton | src/composables/useCopilotMetrics.ts:188-193 | a day's first record opens the tally with its login alone and its counts |
| DailyView.AddDayRecord | src/composables/useCopilotMetrics.ts:180-194 | after one more record every accumulator is the tally of its day's records so far, keyed in first-seen order |
| DailyView.AccumulateDays | src/composables/useCopilotMetrics.ts:179-195 | after the loop the map holds the tally of every day, keyed in first-seen order |
| DailyView.ComputeDailyMetrics | src/composables/useCopilotMetrics.ts:168-208 | the computed `dailyMetrics` equals the specification `DailyMetricsOf` |
| DailyView.DayRowIsTally | src/composables/useCopilotMetrics.ts:197-206 | every row is the row of its day's records, and that day has records |
| DailyView.DayRowMeaning | src/composables/useCopilotMetrics.ts:182-205 | a day's `active_users` is its number of distinct logins, at most its number of records; its totals are sums over its records; the rate is that of its totals |
| DailyView.EveryDayHasRow | src/composables/useCopilotMetrics.ts:179-195 | every day in the records has a row |
| DailyView.DailyOrdered | src/composables/useCopilotMetrics.ts:207 | as many rows as distinct days, and days strictly increase down the list |
| FeatureView.FeatureRows | src/composables/useCopilotMetrics.ts:217-243 | one row per raw feature, row j for the j-th feature met; it shows that feature's display name, the sums of the counts over its breakdowns, and the rate of those sums |
| FeatureView.FeatureTallySnoc | src/composables/useCopilotMetrics.ts:221-224 | a further breakdown of a known feature adds its counts |
| FeatureView.AddFeatureEntry | src/composables/useCopilotMetrics.ts:219-231 | after one more breakdown every accumulator is the tally of its feature's breakdowns so far |
| FeatureView.AccumulateFeatures | src/composables/useCopilotMetrics.ts:217-233 | after both loops the map holds the tally of every feature over all breakdowns of all records |
| FeatureView.ComputeFeatureMetrics | src/composables/useCopilotMetrics.ts:211-245 | the computed `featureMetrics` equals the specification `FeatureMetricsOf` |
| FeatureView.FeatureRowMeaning | src/composables/useCopilotMetrics.ts:235-243 | each row shows the formatted name of a raw feature met, with the sums over that feature's breakdowns and the rate of those sums |
| FeatureView.FeaturesOrderedAndConserved | src/composables/useCopilotMetrics.ts:211-245 | one row per distinct raw feature; code generated never increases down the list; ties keep first-seen order; the row totals add up to the totals of all feature breakdowns |
| IdeView.IdeRows | src/composables/useCopilotMetrics.ts:254-281 | one row per raw editor, row j for the j-th editor met; it shows that editor's display name, the number of distinct logins among its breakdowns, and the sums of their counts |
| IdeView.IdeTallySnoc | src/composables/useCopilotMetrics.ts:258-262 | a further breakdown of a known editor adds its login to the set and its counts to the totals |
| IdeView.IdeTallySingleton | src/composables/useCopilotMetrics.ts:264-269 | an editor's first breakdown opens the tally with its login alone and its counts |
| IdeView.AddIdeEntry | src/composables/useCopilotMetrics.ts:256-270 | after one more breakdown every accumulator is the tally of its editor's breakdowns so far |
| IdeView.AccumulateIdes | src/composables/useCopilotMetrics.ts:254-272 | after both loops the map holds the tally of every editor over all editor breakdowns |
| IdeView.ComputeIdeMetrics | src/composables/useCopilotMetrics.ts:248-283 | the computed `ideMetrics` equals the specification `IdeMetricsOf` |
| IdeView.IdeRowMeaning | src/composables/useCopilotMetrics.ts:274-281 | each row shows the display name of a raw editor met, the number of distinct logins that used it, and the sums over its breakdowns |
| IdeView.IdeUsersBound | src/composables/useCopilotMetrics.ts:277 | an editor's user count is at most its number of breakdowns |
| IdeView.IdesOrderedAndConserved | src/composables/useCopilotMetrics.ts:248-283 | one row per distinct raw editor; user counts never increase down the list; ties keep first-seen order; the row totals add up to the totals of all editor breakdowns |
| LanguageView.LanguageRows | src/composables/useCopilotMetrics.ts:289-312 | one row per raw language, row j for the j-th language met; it shows that language capitalised, the sums of the counts over its breakdowns, and the rate of those sums |
| LanguageView.LanguageTallySnoc | src/composables/useCopilotMetrics.ts:293-295 | a further breakdown of a known language adds its counts |
| LanguageView.AddLanguageEntry | src/composables/useCopilotMetrics.ts:291-301 | after one more breakdown every accumulator is the tally of its language's breakdowns so far |
| LanguageView.AccumulateLanguages | src/composables/useCopilotMetrics.ts:289-303 | after both loops the map holds the tally of every language over all language breakdowns |
| LanguageView.ComputeLanguageMetrics | src/composables/useCopilotMetrics.ts:286-314 | the computed `languageMetrics` equals the specification `LanguageMetricsOf` |
| LanguageView.LanguageRowMeaning | src/composables/useCopilotMetrics.ts:305-312 | each row shows a raw language met with its first letter upper-cased, the sums over its breakdowns and the rate of those sums |
| LanguageView.LanguagesOrderedAndConserved | src/composables/useCopilotMetrics.ts:286-314 | one row per distinct raw language; code generated never increases down the list; ties keep first-seen order; the row totals add up to the totals of all language breakdowns |
| GlobalView.TotalsSnoc | src/composables/useCopilotMetrics.ts:326-334 | one more record adds its counts and the lines of its editor breakdowns to the running totals |
| GlobalView.ComputeGlobalStats | src/composables/useCopilotMetrics.ts:317-351 | the computed `globalStats` equals the specification `GlobalStatsOf` |
| GlobalView.GlobalStatsMeaning | src/composables/useCopilotMetrics.ts:337-347 | no records give all zeros and empty days; otherwise the report period is the first record's; the user count is between 1 and the number of records; the rate is that of the totals |
| Conservation.GlobalMatchesUsers | src/composables/useCopilotMetrics.ts:317-351 | `total_users` is the number of user rows, and each global total (interactions, generated, accepted, lines added, lines suggested) is the sum of the matching `usersSummary` column |
| Conservation.ActiveDaysCountRecords | src/composables/useCopilotMetrics.ts:116 | the users' active days add up to the number of records |
| Conservation.GlobalMatchesDays | src/composables/useCopilotMetrics.ts:317-351 | the global interactions, generated and accepted are the sums of the matching `dailyMetrics` columns |

## Left out

- Rates.AcceptanceRate: models the rate in exact rational arithmetic, rounded half up. The source computes `Math.round((a / g) * 100)` in binary floating point, which can round differently when the ratio lies within a rounding error of a half.
- Text.NotAfter: `localeCompare` is modelled as comparison by character code. Locale collation is not modelled. The two agree on the `YYYY-MM-DD` days the records carry.
- Text.Less: JavaScript compares strings by UTF-16 code unit. The model compares Dafny characters, that is code points. The two differ only for characters outside the Basic Multilingual Plane.
- DisplayNames.AsciiUpper: `toUpperCase` is modelled on ASCII letters only. Other letters are left as they are. Special cases such as `ß` becoming `SS`, which change the length, are not modelled.
- DisplayNames.FormatFeatureName: the name tables are looked up as plain maps. A JavaScript object literal would also answer inherited keys such as `constructor`, which is not modelled.
- Ingestion.ParseText: `JSON.parse` is the `parse` parameter. A line that parses to something other than a well-formed record (missing fields, wrong types) is not modelled: records are always well-formed values with non-negative counts.
- Ingestion.MetricsStore.LoadMetricsFromText: the fallback message 'Erreur lors du parsing des données' is not modelled. The fallback in `loadMetrics` ('Unknown error') is not modelled either. Both apply only to a thrown value that is not an `Error`, and parsing never throws one.
- Ingestion.MetricsStore.LoadMetrics: `fetch` and `response.text()` are replaced by the `fetched` parameter: a response (ok flag, status text, body) or a network error with its message. The default path `/data/metrics.ndjson` is not modelled. A failure while reading the body is not modelled.
- Ingestion.MetricsStore.LoadMetrics: the `await` of `fetch` and of `response.text()` is not modelled. The method runs as one atomic step, so the intermediate state with `loading` true is never observed. Interleaved or duplicate loads, and a `clearMetrics` or an upload while a fetch is pending, are not captured.
- Ingestion.MetricsStore.constructor: the `sessionStorage` read at start-up is replaced by the `stored` parameter. A failed or malformed read counts as no stored records. The `sessionStorage` write after a successful parse is not modelled, and neither are the console warnings and errors.
- Vue reactivity is not modelled: `computed` recalculation, and `ref` wrappers shared between callers. Each view is modelled as a function of the current records, and each `Compute…` method as its computation.
- The plugin and editor version fields and `totals_by_language_model` are not read by any view, and the record types omit them.
- Counts are unbounded naturals. JavaScript numbers lose precision above 2^53, which is not modelled.
- `src/composables/useChartData.ts`, `src/main.ts`, `src/router/index.ts` and the Vue components are not part of this model.
- The inner editor loop of `usersSummary` appears twice in the source, once per branch. Both copies are modelled by the one method `UsersView.SumIdeLoc`, which `globalStats` reuses for its own identical loop.
- Each loop body is modelled as its own method (`AddUserRecord`, `AddDayRecord`, …), called from the loop. The updates are the source's, applied to a `map` value that the loop reassigns, not to accumulator objects mutated inside the map.
