# Monitoring Cell Dashboard: record-keeping core in Dafny

This project models the record-keeping logic of the school monitoring dashboard
(`school.py`). Team members record metric observations for a school, such as cleanliness
or attendance. Each observation may be flagged as an anomaly. Observations are appended
to a flat store file, filtered by district, school, metric and date, and the flagged
numeric observations are grouped by (school, metric) and summarised as an increasing,
decreasing or stable trend from a forecast.

Modules, one per piece of the pipeline:

- `Wrappers` (`wrappers.dfy`): `Option`.
- `Seqs` (`seqs.dfy`): `Select`, an order-keeping row selection, the boolean mask the
  dashboard applies. Also `IsSubsequence` and the lemmas about both: subsequence,
  multiplicity, concatenation.
- `Entries` (`entries.dfy`): the `Record` of one observation, the entry `Form`, and
  `BuildEntry`, which validates the form and builds the entry.
- `Store` (`store.dfy`): the store file (`Absent`, `Blank` for a zero-byte file, or a
  `Table` that may lack the "Is Anomaly" column) and `Load`, which backfills that column.
  Also the `Dashboard` class: its `file` and `pending` fields are the store and the
  buffer of unsaved entries, and its `Submit` and `Reset` methods change them in place.
- `Filters` (`filters.dfy`): the `Selection` of districts, schools, metrics and a closed
  date range, and `FilterRows`.
- `Trends` (`trends.dfy`): selection of the anomaly rows and numeric coercion
  (`TrendRows`), grouping by (school, metric) (`Group`), the minimum of 5 points, the NaN
  guard, and the classification with factors 1.2 and 0.8. The loop over the groups is
  `ReportGroups`, and `AnalyzeTrends` is the whole button action.

Modelling choices:

- Dates are integer day numbers.
- Numeric coercion is a function parameter `parse: string -> Option<real>`.
- The forecaster is a function parameter from the (date, value) series to either
  `Raised` (an exception) or a sequence of `Yhat` values, each `NaN` or `Finite(v)`.
- Today's date is a parameter of `Submit`.
- The three numbers the analysis uses are named constants: `MinPoints = 5`,
  `UpFactor = 1.2` and `DownFactor = 0.8`.

Behaviour of the code the model follows:

- The forecaster receives a group's rows in store order. The code does not sort them by
  date (school.py:143).
- The add path reads an existing store file without the size check that loading makes
  (school.py:78-79 against 86). A store file that exists but has zero bytes therefore
  makes the add fail after the entry was buffered, and the buffer keeps it.
  `Submit` models this as `SaveFailed`. The `Dashboard` invariant `Valid()` states that
  entries stay pending only in that situation.
- When the forecast has no NaN but is empty, looking up its first or last value raises inside
  the per-group handler. `Interpret` reports this as `Failed`.
- The classification compares against `1.2 * first` and `0.8 * first` directly. For a
  negative first value the bands are mirrored, so a flat negative forecast is labelled
  increasing (`ClassifyFlat`).

## Model

| member | source | states |
|---|---|---|
| `Entries.BuildEntry` | school.py:56-73 | No entry exactly when the value is empty. Otherwise the entry is well-formed: non-empty value, and an empty comment unless flagged. Its value is the entered text, whether or not it is a number. Its flag, identity fields and date come from the form and today; its comment is the entered one when flagged. |
| `Entries.BuildEntryComplete` | school.py:64-73 | Every well-formed record is what the form builds from its own fields. So the entries the form can produce are exactly the well-formed records. |
| `Entries.CommentIgnoredUnlessAnomaly` | school.py:71 | When the anomaly box is not ticked, the typed comment does not affect the built entry. |
| `Store.Load` | school.py:86-92 | An absent or zero-byte file loads as no rows. A table keeps its rows and their order, with every field except the flag unchanged. With the "Is Anomaly" column the rows are as stored; without it every row's flag is false. |
| `Store.Dashboard.constructor` | school.py:16-17 | A session starts over the file on disk with an empty buffer, and the invariant holds. |
| `Store.Dashboard.Reset` | school.py:19-22 | After reset the store file is absent, the buffer is empty, and no rows load. |
| `Store.Dashboard.Submit` | school.py:56-84 | Rejected exactly when the value is empty; the store and the buffer are then unchanged. On a zero-byte file it fails, the store is unchanged, and the entry stays in the buffer. Otherwise the loaded rows become the old rows followed by the new entry, the file is rewritten with the column present, and the buffer is empty. |
| `Filters.FilterRows` | school.py:110-116 | The result is a subsequence of the rows. Every row in it matches: district, school and metric in their sets, and date within the closed range. Every matching row is kept as often as it occurs, and no other row is kept. |
| `Filters.EmptySelectionSelectsNothing` | school.py:98-116 | An empty district, school or metric selection, or a range whose end precedes its start, gives no rows. |
| `Filters.FilterAfterAppend` | school.py:80-116 | After an append, the filtered view is the old view, followed by the new row exactly when that row matches. |
| `Trends.Anomalies` | school.py:131-133 | The anomaly selection is empty exactly when no filtered row is flagged. |
| `Trends.TrendRows` | school.py:131-136 | The trend input is a subsequence of the filtered rows. It holds each flagged row whose value parses, as often as it occurs, and no other row. |
| `Trends.Group` | school.py:138 | Every row of a group is an input row with that group's (school, metric) key. |
| `Trends.GroupIsPartition` | school.py:138-140 | A group exists exactly for each key that occurs. Groups are non-empty subsequences of the input. Each input row lies in its own key's group with all its occurrences, so together the groups cover the input exactly. |
| `Trends.GroupsDisjoint` | school.py:138 | Two different groups share no row. |
| `Trends.Series` | school.py:143 | The forecaster's series has one (date, value) point per row of the group, taken from that row's date and parsed value. |
| `Trends.Classify` | school.py:162-167 | Exactly one label. Increasing iff last > 1.2·first. Decreasing iff not increasing and last < 0.8·first. Stable otherwise. |
| `Trends.ClassifyRelativeChange` | school.py:162-167 | For a positive first value: increasing iff last/first > 1.2, decreasing iff last/first < 0.8, stable iff the ratio lies in [0.8, 1.2]. |
| `Trends.ClassifyScaleInvariant` | school.py:162-167 | Scaling both forecast values by the same positive factor leaves the label unchanged. |
| `Trends.ClassifyFlat` | school.py:162-167 | A flat forecast (first = last) is stable when non-negative and increasing when negative. |
| `Trends.Interpret` | school.py:156-170 | A forecast holding a NaN gives `Unreliable` and no label. A raised forecaster, or an empty forecast without NaN, gives `Failed`. Otherwise the outcome is the label of the first and last values, both finite. It is never `NotEnoughData`. |
| `Trends.GroupOutcome` | school.py:143-170 | A group's report is `NotEnoughData` exactly when it has fewer than 5 points. Otherwise it is the interpretation of the forecast of its series. |
| `Trends.SmallGroupIgnoresForecast` | school.py:145-147 | For a group below 5 points the report is `NotEnoughData` whatever the forecaster would return, so it is never forecast or classified. |
| `Trends.ReportGroups` | school.py:140-170 | The loop gives exactly one report per group, and each report is that group's `GroupOutcome`. |
| `Trends.AnalyzeTrends` | school.py:130-173 | `NoAnomalies` exactly when no filtered row is flagged. Otherwise it gives one report per (school, metric) group of the numeric anomaly rows, namely that group's `GroupOutcome`. |

## Left out

- The Streamlit interface is not modelled: widgets, the form, the sidebar, messages, charts and the download button. The interface feeds the model its inputs (the form, the selection, button presses) and displays its outcomes.
- Exporting the filtered rows as CSV (school.py:122-123) is not modelled, because CSV serialisation is outside the model.
- CSV reading and writing, `os.path.exists`, `os.stat` and `os.remove` are not modelled. The store file is the value `StoreFile`.
- An empty "Anomaly Comment" read back from the CSV file comes back as NaN, not `""`. The model keeps the stored text, because CSV reading is outside the model.
- CSV type inference on reading back is not modelled. A `Value` such as `007` may come back as a number; the model keeps the entered text.
- Empty "Is Anomaly" cells are read as false. They arise when rows are concatenated onto a legacy file without that column, and pandas gives those old rows NaN. The only reader compares the flag with `True`.
- The reference table of districts and schools (school.py:12, 36-46) is not modelled. The form's district and school are inputs, and the code does not check that they belong together.
- `float(value)` at school.py:60-63 has no effect on the entry, so the model has no counterpart. `BuildEntry` keeps the value as text.
- The exact parsing rules of pandas' `to_numeric` and `to_datetime` are not modelled. They are the `parse` parameter and integer day numbers.
- `datetime.date.today()` is not modelled; it is the `today` parameter.
- Prophet's fitting, its 7-day daily horizon and `uncertainty_samples` (school.py:150-154) are not modelled. They belong to the `forecast` parameter.
- The order in which pandas yields groups is not modelled. The groups and their reports are maps keyed by (school, metric).
- Trends.Interpret: IEEE floating point is not modelled. Values and thresholds are `real`, and an infinite forecast value, which `np.isnan` does not flag, is not representable.
- Only two exceptions in the per-group handler (school.py:169-170) are modelled: a raising forecaster and an empty forecast. Their messages are not modelled.
- A date range with only one date chosen (school.py:107, 114-115) is not modelled, because it is an interface state.
- Concurrent sessions writing the same store are not modelled, because the code gives them no coordination.
