# Restaurant order prediction: a Dafny model of the predictor

This project models the prediction core of a restaurant order prediction
engine (`predictor.py`). A request names a target date (as text), an hour
and a special-event flag. The predictor does the following, in order:

1. It parses the date. A bad date returns an error payload.
2. It looks up the hourly weather forecast. The target day must lie in a
   14-day window starting today, and any provider or parsing failure is
   returned as an error payload.
3. It takes the distinct (name, category) pairs of the menu table.
4. It builds two scenario rows per pair, one Dine In and one Take Away.
   Both rows share the hour, the weekday, the day type, the weather, the
   holiday flag and the event flag.
5. It one-hot encodes five categorical fields and reindexes the result onto
   the classifier's fixed column list, filling missing columns with 0.
6. It scores every row with the classifier.
7. It builds two outputs:
   - an overall ranking: the mean probability per item name, highest first;
   - a detailed table: the data pivoted to one row per name, with Dine In
     and Take Away columns, missing cells filled with 0.
8. It assembles the response envelope: metadata, weather conditions, and
   the two tables.

Module layout (one file each):

- `wrappers.dfy`, module `Wrappers`: `Option` and `Result`.
- `sequences.dfy`, module `Sequences`: the sequence helpers the table
  operations rely on.
  - De-duplication that keeps first occurrences.
  - A generic stable insertion sort with its sortedness and permutation
    lemmas.
  - Python's string ordering, `StrLeq`, proved total and antisymmetric, so
    the sorted group keys are strictly ascending.
- `weather.dfy`, module `Weather`: `get_hourly_weather_forecast`.
  - The window check works on day numbers.
  - The HTTP call and its JSON navigation are a `Fetcher` parameter.
  - Python's negative list indexing is written out as `PyIndex`.
- `features.dfy`, module `FeatureBuilder`: the scenario rows.
  - Day types.
  - The distinct menu items.
  - The scenario expansion, both as a function (`Expand`) and as the
    source's loop (`BuildScenarios`).
- `encoding.dfy`, module `ModelAdapter`: `get_dummies`, `reindex`
  (`Align`) and `predict_proba` (`Score`). The classifier is a parameter.
- `aggregation.dfy`, module `Aggregator`: the groupby mean with its
  descending sort (`Overall`), and the pivot with `fillna(0)` (`Pivot`).
- `service.dfy`, module `PredictionService`: `generate_predictions`.
  - The loaded artifacts and outside collaborators form a `Context`: the
    menu, the model columns, the classifier, the calendar and the
    forecast provider.
  - The clock reading `today` is a parameter.
  - Exceptions that escape the function are `Raised` responses.

Two behaviours of the code worth knowing, both modelled as the code has
them:

- Ties in the overall ranking. The descending sort of the means uses
  pandas' default sort, which is not stable, so the code fixes no order
  among equal means. The model sorts with a stable insertion sort, which
  puts ties in ascending name order. No contract states anything about the
  order of ties.
- Item names shared across categories. Two menu items with the same name but
  different categories give two scenario rows with the same (name, order
  type) pair. `pivot` then raises `ValueError` ("Index contains duplicate
  entries, cannot reshape"), and the function does not catch it. The model
  returns `Raised(PivotFailure(...))` in that case.
  `PredictionService.FaultsExactly` proves that this happens exactly when
  two distinct menu items share a name.

## Model

| member | source | states |
|---|---|---|
| Weather.ForecastDays | predictor.py:34-37 | A day count is produced exactly when the target lies between today and today + 13. It is then target − today + 1, which lies between 1 and 14. |
| Weather.PyIndex | predictor.py:43-44 | A list index is valid exactly when −n ≤ k < n. A negative index counts from the end of the list. |
| Weather.HourlyForecast | predictor.py:31-46 | An out-of-window target gets the 14-day message whatever the provider answers, so the provider is never consulted. A slice is returned only for an in-window target whose provider answer succeeded, and it is one of that answer's hours. |
| Weather.InWindowLookup | predictor.py:39-46 | In the window, the provider is asked for target − today + 1 days. A provider error is returned with the "API or data parsing error: " prefix. The hour indexes the returned list Python-style, and an out-of-range hour becomes the prefixed "list index out of range". |
| Weather.LookupErrors | predictor.py:36-46 | A lookup error carries the parsing-error prefix exactly when the target was inside the window. |
| Sequences.Dedup | predictor.py:64 | The result has no duplicates and contains exactly the elements of its input, ordered by their first occurrences in the input. |
| Sequences.IndexOf | predictor.py:64 | The position returned holds the element, and no earlier position does. |
| Sequences.IndexOfAppend | predictor.py:64 | Appending an element moves no element's first occurrence, and a new element first occurs at the appended position. |
| Sequences.SortBySorted | predictor.py:102 | For a total order, the sorted result is ordered. |
| Sequences.SortByDistinctBy | predictor.py:101-102 | Sorting keeps a duplicate-free key column duplicate-free. |
| Sequences.SortStrings | predictor.py:101 | Sorting distinct names by Python's string order gives distinct names with the same elements, each strictly below its successor, which is how groupby orders its keys. |
| Sequences.StrLeqIsTotal | predictor.py:101 | Python's string comparison relates every two strings. |
| Sequences.StrLeqAntisymmetric | predictor.py:101 | Two strings that are each ≤ the other are equal. |
| FeatureBuilder.DayType | predictor.py:66 | The day type is Weekend exactly for Saturday and Sunday, and Weekday otherwise. |
| FeatureBuilder.UniqueItems | predictor.py:64 | The distinct (name, category) pairs contain no pair twice and exactly the menu's pairs, in the order of their first occurrences in the menu. |
| FeatureBuilder.Expand | predictor.py:70-88 | There are two rows per item. Row 2i is item i's Dine In scenario and row 2i+1 its Take Away scenario. |
| FeatureBuilder.BuildScenarios | predictor.py:70-88 | The append loop produces exactly the expansion, two rows per unique item in item order. |
| FeatureBuilder.ExpandRow | predictor.py:87-88 | Row p belongs to item p / 2. Its order type is Dine In exactly when p is even. |
| FeatureBuilder.ExpandSharedContext | predictor.py:72-86 | Every scenario row carries the request's hour, weekday, day type, weather, holiday and event flags, and the name and category of a menu item. Its order type is Dine In or Take Away. |
| ModelAdapter.Score | predictor.py:96-97 | There is one probability per scenario row, in row order, and row i's probability is the classifier's output on aligned row i. |
| ModelAdapter.DummyNameInjective | predictor.py:93 | An indicator column name determines its field and value, so no two indicators collide. |
| ModelAdapter.NumericIsNotDummy | predictor.py:93 | No indicator column is named like a numeric column. |
| ModelAdapter.OneHot | predictor.py:93 | In every row and every categorical field, the indicator of the row's own value is true and all other indicators of that field are false. Numeric columns keep the row's values. |
| ModelAdapter.EncodeRow | predictor.py:93 | Every encoded row has the same columns: the numeric columns plus one indicator per value some row takes. Numeric columns carry the row's values, and every indicator holds a flag, set for the row's own values. |
| ModelAdapter.Align | predictor.py:94 | The aligned table has exactly the model's columns in the model's order, one row per scenario, and one cell per model column. A cell holds the encoded value where the encoding produced that column, and 0 where it did not. |
| ModelAdapter.AlignCells | predictor.py:93-94 | A numeric model column holds the row's value. An indicator column for a value some row takes is true exactly in rows with that value. Any other model column is filled with 0. |
| Aggregator.GroupKeys | predictor.py:101 | The groupby keys are the distinct item names of the rows, in strictly ascending order. |
| Aggregator.ProbabilitiesOf | predictor.py:101 | A name's group is non-empty exactly when some row has that name. Its probabilities lie in [0, 1]. |
| Aggregator.MeanBounds | predictor.py:101 | The mean of probabilities is a probability. |
| Aggregator.GroupMeans | predictor.py:101 | There is one mean per group key, in key order. |
| Aggregator.Overall | predictor.py:101-102 | The ranking is a permutation of the group means, and its probabilities never increase from one entry to any later one. |
| Aggregator.OverallPermutesGroups | predictor.py:102 | Every ranking entry is a group mean, and every group mean is ranked. |
| Aggregator.OverallOnePerName | predictor.py:101-102 | The ranking has one entry per distinct name, no name twice, and exactly the rows' names. |
| Aggregator.OverallMeans | predictor.py:101-102 | Each ranking entry's probability is the mean of its name's row probabilities, and lies in [0, 1]. |
| Aggregator.CellValue | predictor.py:106 | With unique (name, order type) pairs, a pivot cell is that row's probability. A missing cell is 0. |
| Aggregator.Detailed | predictor.py:106 | There is one detailed row per group key, in key order. |
| Aggregator.Pivot | predictor.py:106 | The pivot succeeds exactly when no (name, order type) pair repeats, and fails otherwise with pandas' duplicate-entries message. On success it has one row per group key, in key order. |
| Aggregator.PivotRows | predictor.py:106 | A successful pivot has one row per distinct name of the rows, with names strictly ascending and none repeated. |
| Aggregator.PivotCells | predictor.py:106 | Each pivot row's Dine In and Take Away values are the probabilities of that name's rows. An absent combination is 0. |
| Aggregator.MeanOfTwoRows | predictor.py:101 | A name with exactly two rows has the mean of those two probabilities, in either order. |
| Aggregator.GroupMeanOfCells | predictor.py:101-106 | A name with one Dine In row and one Take Away row has the mean of its two pivot cells as its overall probability. |
| Aggregator.OverallIsMeanOfBreakdown | predictor.py:101-106 | When every name has both order types and no pair repeats, the ranking holds exactly the entries (name, (Dine In + Take Away) / 2) of the detailed rows, reordered. |
| PredictionService.ScoredRows | predictor.py:93-97 | The scored table has one probability per scenario row, in row order. Row i's probability is the classifier's output on row i of the encoded table reindexed onto the model's columns. |
| PredictionService.Respond | predictor.py:90-127 | Once the scenario rows exist, no error payload is returned. An empty scenario table raises. Otherwise a prediction comes back exactly when the scored rows' (name, order type) pairs are unique, and a pivot failure carries pandas' duplicate-entries message. |
| PredictionService.Predict | predictor.py:49-129 | A date that does not parse gets the format error. After a parsed date, a failed lookup's message is returned unchanged. An error payload comes back in those two cases and no others. |
| PredictionService.GeneratePredictions | predictor.py:49-129 | The source's sequence of steps, including its scenario loop, gives exactly the response `Predict` defines. |
| PredictionService.InvalidDateFirst | predictor.py:53-56 | A date that does not parse gets the same response whatever the clock or the provider. |
| PredictionService.OutOfWindowRefused | predictor.py:34-37 | A parsed date outside the window is refused with the window message. The response does not depend on the menu, the model or the provider. |
| PredictionService.PivotKeysUniqueIffNamesDistinct | predictor.py:64-106 | The scenario rows' (name, order type) pairs are unique exactly when no two distinct menu items share a name. |
| PredictionService.FaultsExactly | predictor.py:90-106 | After a successful lookup, an empty menu raises from get_dummies. Otherwise the pivot raises exactly when two distinct items share a name. A prediction is returned exactly when neither happens. |
| PredictionService.ItemNames | predictor.py:74 | Gives the name of each item, in order. |
| PredictionService.ExpandedRowHasBothCells | predictor.py:87-88 | Every scenario name has both a Dine In row and a Take Away row. |
| PredictionService.ExpandedRowsComplete | predictor.py:87-88 | Only the two order types occur, and every name has both. |
| PredictionService.ExpandedNames | predictor.py:70-88 | The scenario rows carry exactly the names of the items. |
| PredictionService.UniqueItemNames | predictor.py:64 | De-duplication keeps every menu name. |
| PredictionService.PredictionFromRows | predictor.py:99-127 | A prediction's ranking and detailed table are the aggregation of the request's scored scenario rows. Its metadata echoes the request and the calendar. Its weather conditions are temperature, precipitation, wind and cloud from the lookup. |
| PredictionService.PredictionShape | predictor.py:99-127 | A prediction has as many overall entries and detailed rows as there are distinct menu items, named after the menu's items. Its metadata echoes the request and the calendar facts. |
| PredictionService.PredictionRanking | predictor.py:99-127 | A prediction's overall entries are non-increasing in probability. As a multiset, they are the means of each detailed row's Dine In and Take Away probabilities. |
| PredictionService.ExpandedRanking | predictor.py:87-106 | For the scored rows of a scenario expansion with unique pivot keys, the ranking is non-increasing and consists exactly of each detailed row's two-cell mean. |

## Left out

- Loading the artifacts at import time (`predictor.py:19-28`) is left out. The model, its column list and the menu table are fields of `Context`, and the file-not-found `RuntimeError` is not modelled.
- The HTTP request, the status check and the JSON navigation to the last forecast day's `hour` list are the `Fetcher` parameter. Each of their failures is the exception text it returns.
- A forecast hour without one of the six read keys (`KeyError` at `predictor.py:78-83`) is not modelled. The slice is a record with all six fields.
- The trained classifier is the `Classifier` parameter: any function from aligned rows to probabilities.
- `strptime`, `strftime('%A')` and the holiday calendar are the `Calendar` parameter.
- Floating-point arithmetic is modelled with exact reals, including the means and `(a + b) / 2`.
- The `'{:.2%}'` percentage formatting (`predictor.py:103`, `107-108`) is not modelled. The envelope carries the unformatted probabilities.
- The column order of `get_dummies`' output is not modelled. The encoding is a map from column name to value, and only the reindexed order matters to the classifier.
- The pandas dtypes (`bool`, `uint8`) of indicator columns are not modelled. Indicators are `Flag` values, and the reindex fill is `Num(0.0)`.
- The order of entries with equal mean probability in the overall ranking is not modelled: the source's sort does not fix it, and no contract here states one.
- `datetime.today()` is the `today` parameter, a day number on the same scale as the parsed date.
- `api.py` (the HTTP layer and its hour range check) is not part of this model.
