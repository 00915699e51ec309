# Measles feed: cleaning, batching and state-month aggregation

A Dafny model of the pure logic inside the two scripts that refresh a measles
map. The first script is the fetcher (`scripts/fetch_measles_data.py`). The
second is the uploader (`scripts/update_arcgis.py`).

- **Transformer** (`Transform`, built on the Python string operations in
  `Text`). It cuts every raw `location_name` on `", "` into a county and a
  state.
  - The county is upper-cased and trimmed.
  - The state is upper-cased, trimmed and title-cased. The single override
    then turns "District Of Columbia" into "District of Columbia".
  - `value` becomes `cases`, and the six output columns are kept in order.
  - pandas refuses to assign a split frame whose width is not 2. The model
    returns that failure as an `Err`.
- **Batching** (`Batching`). The uploader cuts its record list into
  consecutive slices of at most 2000 records, `records[i:i+2000]` for `i` in
  `range(0, n, 2000)`. It has two forms:
  - `Batches`, a recursive reference definition;
  - `SliceBatches`, the loop as the script writes it.
- **Aggregation** (`Aggregation`, with `Calendar` and `Order`).
  - Rows that have a state are grouped by state and by the `YYYY-MM` bucket of
    their date.
  - `cases` are summed over every outcome type.
  - The groups come out sorted the way `groupby` sorts them.
  - Each group gets `year`, `month` and `month_name`, read back from its
    bucket, and the run's timestamp.
  - `pd.to_datetime` cannot represent the first day of September 1677. A
    bucket for that month therefore makes the aggregation fail.
- **Upload trace** (`Upload`). The feature service is modelled only as a
  sequence of operations:
  - a truncate;
  - one add per batch, each record wrapped as `{"attributes": record}`;
  - after the state-month layer, an update of the item's snippet.

  `Replay` gives what a layer holds after the trace, given which features the
  service stored. The script never looks at an add's result, so the trace
  does not depend on it.
- **Reload** (`Reload`). The uploader reads the cleaned CSV back. The
  `location_id` column's typing is modelled both as written and as intended
  (see Findings). `ScriptOnTable` is the rest of the script, on whatever
  table was read back:
  - `UploadScriptAsWritten` runs it on pandas' typed read;
  - `UploadScript` runs it on the read that keeps the identifiers as text.

Two consequences of `str.split(", ", expand=True)` are kept:

- The split cuts at every separator, not only the first.
  A name holding the separator twice widens the frame to three columns, and
  the assignment to the two columns then raises.
- A name without a separator gets a missing state only when some other name
  has one. When no name has a separator, the frame has a single column and
  the assignment raises.

`Scenarios` holds three worked examples:

- one row through the transformer;
- two rows of one state and month through the aggregation;
- 4500 records through one layer's update.

## Model

| member | source | states |
|---|---|---|
| Text.Strip | scripts/fetch_measles_data.py:27-28 | `str.strip()`: the result neither starts nor ends with whitespace and is no longer than the input |
| Text.StripIsSlice | scripts/fetch_measles_data.py:27-28 | the stripped text is a contiguous slice of the input, so leading whitespace, result and trailing whitespace rebuild the input |
| Text.StripRemovesOnlySpace | scripts/fetch_measles_data.py:27-28 | what `strip` cuts off on either side is whitespace only |
| Text.StripUnique | scripts/fetch_measles_data.py:27-28 | reference characterisation: a text with no surrounding whitespace is what `strip` returns for it padded with any whitespace on both sides |
| Text.StripIdempotent | scripts/fetch_measles_data.py:27-28 | stripping twice is stripping once |
| Text.StripUpperCommute | scripts/fetch_measles_data.py:27-28 | upper-casing then stripping equals stripping then upper-casing |
| Text.UpperFixesExactlyNoLower | scripts/fetch_measles_data.py:27-28 | `upper()` leaves no lower-case letter, and leaves a text unchanged exactly when it has none |
| Text.Title | scripts/fetch_measles_data.py:29 | `title()`: a letter is upper-case exactly when it starts the text or follows a non-letter; every other letter is lower-case; non-letters are unchanged and each character keeps its upper-case form |
| Text.UpperTitle | scripts/fetch_measles_data.py:29 | title-casing only changes letter case: upper-casing the result gives the upper-cased input |
| Text.Find | scripts/fetch_measles_data.py:24 | the leftmost occurrence of the separator, or none exactly when the text does not contain it |
| Text.JoinSplit | scripts/fetch_measles_data.py:24 | joining the pieces of `split(sep)` with `sep` gives back the text |
| Text.SplitPiecesFree | scripts/fetch_measles_data.py:24 | no piece of a split contains the separator |
| Text.SplitWithoutSeparator | scripts/fetch_measles_data.py:24 | a text splits into one piece exactly when it does not contain the separator, and that piece is the text itself |
| Text.SplitAtOnlyOccurrence | scripts/fetch_measles_data.py:24 | a text with a single occurrence of the separator splits into the text before it and the text after it |
| Text.SplitTwoPieces | scripts/fetch_measles_data.py:24 | two pieces joined around the separator rebuild the text, which therefore contains it |
| Text.UpperReplace | scripts/fetch_measles_data.py:30 | a `replace` whose pattern and replacement differ only in letter case changes no character's upper-case form |
| Text.ReplaceChangesIff | scripts/fetch_measles_data.py:30 | a same-length `replace` with a different replacement changes the text exactly when the pattern occurs in it |
| Transform.CleanRowOf | scripts/fetch_measles_data.py:24-37 | one cleaned row: `cases` is the raw `value`; `location_id`, `date` and `outcome_type` pass through unchanged; the state is present exactly when the name contains ", " |
| Transform.SplitWidth | scripts/fetch_measles_data.py:24 | the width of the split frame is the largest number of pieces of any name (0 for no rows) |
| Transform.Transform | scripts/fetch_measles_data.py:24-37 | succeeds exactly when some name splits into two pieces and none into more; then it keeps every row, in order, each one cleaned; otherwise it reports a width other than 2 |
| Transform.PiecesCountSeparators | scripts/fetch_measles_data.py:24 | a name gives one column exactly when it lacks ", ", and at most two exactly when ", " occurs in it at most once |
| Transform.TransformSucceedsIff | scripts/fetch_measles_data.py:24 | the transformer succeeds exactly when some name contains ", " and no name contains it twice |
| Transform.SplitAtSeparator | scripts/fetch_measles_data.py:24 | with exactly one ", ", the county is the text before it and the state the text after it, and the three rebuild the name |
| Transform.SplitWithoutState | scripts/fetch_measles_data.py:24 | without ", " the county is the whole name and the state is missing |
| Transform.SplitReconstructs | scripts/fetch_measles_data.py:24 | in an accepted table, a row with a state has county + ", " + state equal to its name |
| Transform.CountyNormalForm | scripts/fetch_measles_data.py:27 | the county is the upper-cased trimmed raw county: no lower-case letter, no surrounding whitespace, and normalising it again changes nothing |
| Transform.StateKeepsLetters | scripts/fetch_measles_data.py:28-30 | the state differs from the trimmed upper-cased input only in letter case, and has its length |
| Transform.StateIdempotent | scripts/fetch_measles_data.py:28-30 | normalising an already normalised state returns it unchanged |
| Transform.OverrideOnlyForDistrict | scripts/fetch_measles_data.py:30 | the override changes a state exactly when its title-cased form contains "District Of Columbia"; any other state is its plain title-cased form |
| Batching.Batches | scripts/update_arcgis.py:40-42 | ceil(n / 2000) batches, each holding between 1 and 2000 records |
| Batching.BatchesFlatten | scripts/update_arcgis.py:41-42 | concatenating the batches in order gives back the record list: nothing dropped, duplicated or reordered |
| Batching.BatchesAreSlices | scripts/update_arcgis.py:41-42 | batch `j` is `records[2000 j .. min(2000 j + 2000, n))` |
| Batching.SliceBatches | scripts/update_arcgis.py:40-46 | the script's loop yields ceil(n / 2000) batches, each the slice at a multiple of 2000, whose concatenation is the record list, and agrees with the reference definition |
| Calendar.DigitsValue | scripts/update_arcgis.py:65 | a text has a decimal value exactly when every character is a digit, and the value is not negative |
| Calendar.ParseYearMonthText | scripts/update_arcgis.py:65-67 | reading a `YYYY-MM` bucket back gives its year and month exactly when its first day is a representable timestamp, and fails otherwise |
| Calendar.MonthStartRepresentable | scripts/update_arcgis.py:54-55 | the bucket of any representable date has a representable first day unless the date lies in September 1677 |
| Order.StrLessIsStrictTotalOrder | scripts/update_arcgis.py:59 | Python's string order, used to sort the group keys, is irreflexive, transitive and total |
| Aggregation.KeyLessIsStrictTotalOrder | scripts/update_arcgis.py:59 | the (state, month) key order is a strict total order |
| Aggregation.Insert | scripts/update_arcgis.py:59 | inserting a key keeps the key list strictly sorted, and adds exactly that key |
| Aggregation.GroupKeys | scripts/update_arcgis.py:59 | the group keys are strictly sorted and are exactly the keys of the rows that have a state |
| Aggregation.FirstBadMonth | scripts/update_arcgis.py:65 | none exactly when every bucket can be read back; otherwise a bucket of the keys that cannot be |
| Aggregation.Aggregate | scripts/update_arcgis.py:54-68 | when it succeeds: one row per distinct (state, month) among rows with a state, sorted and without duplicates; each `cases` is the sum over that group's rows, whatever their outcome type; every row carries the run time |
| Aggregation.AggregateFailsOnlyBeforeTimestampRange | scripts/update_arcgis.py:65 | the aggregation fails exactly when some row with a state is dated in September 1677 |
| Aggregation.AggregateCalendarColumns | scripts/update_arcgis.py:55-67 | every aggregate row's year and month are those of the dates in its group, the month lies in 1..12, and the month name is its English name |
| Aggregation.SingleGroup | scripts/update_arcgis.py:58-62 | rows that all fall into one group aggregate to a single row holding the group's sum |
| Aggregation.SortedDistinct | scripts/update_arcgis.py:58-62 | a strictly sorted key list has no duplicate key |
| Aggregation.AggregatePreservesTotal | scripts/update_arcgis.py:58-62 | the aggregate's total cases equal the total cases of the rows that have a state |
| Aggregation.GroupSumPartition | scripts/update_arcgis.py:58-62 | splitting the rows into two parts by any criterion and adding the two per-group sums gives the per-group sum of all rows |
| Aggregation.GroupSumConcat | scripts/update_arcgis.py:58-62 | the per-group sum over two row lists placed end to end is the sum of their per-group sums |
| Reload.ReadIds | scripts/update_arcgis.py:21 | corrected read, typing the column as text as the fetch script does at its line 21: reading the identifiers renders every identifier exactly as written |
| Reload.ReloadRows | scripts/update_arcgis.py:21 | corrected read: reading the cleaned table back with text identifiers gives the table that was written |
| Reload.ReadIdsAsWrittenKeepsIff | scripts/update_arcgis.py:21 | for the columns of unsigned digit runs the model reads as numbers, the uploader's read keeps every identifier exactly when some identifier is not such a run, or none has a leading zero |
| Reload.LeadingZeroLost | scripts/update_arcgis.py:21 | the identifier "01001" is read as the integer 1001 and is written to the layer as "1001" |
| Reload.ReloadRowsAsWritten | scripts/update_arcgis.py:21 | the uploader's read of the cleaned table keeps the row count and every column except `location_id` |
| Reload.ReadOneIdAsWritten | scripts/update_arcgis.py:21 | any one-row table whose identifier is "01001" comes back with identifier "1001" |
| Reload.ReloadAsWrittenChangesIdentifier | scripts/update_arcgis.py:21 | a one-row table with identifier "01001" comes back with identifier "1001" |
| Reload.DecimalTextOfDigits | scripts/update_arcgis.py:21 | printing the value of a digit run gives the run back exactly when it has no leading zero |
| Upload.UnwrapWrap | scripts/update_arcgis.py:44 | the attributes of the wrapped features are the batch's records, unmodified and in order |
| Upload.LayerOps | scripts/update_arcgis.py:36-46 | one layer's update is a truncate of that layer followed by ceil(n / 2000) adds to that layer, each of 1 to 2000 features |
| Upload.LayerOpsSendEachRecordOnce | scripts/update_arcgis.py:41-45 | the adds of one layer's update carry every record exactly once, in order |
| Upload.LayerOpsAddBatches | scripts/update_arcgis.py:41-45 | feature `i` of add `j` wraps record `2000 (j - 1) + i` |
| Upload.EmptyUpdateOnlyTruncates | scripts/update_arcgis.py:36-41 | with no records the update is a truncate and no add |
| Upload.LayerOpsOrdered | scripts/update_arcgis.py:36-45 | within one layer's update the truncate comes before every add, and every add follows a truncate of its layer |
| Upload.AfterAggregation | scripts/update_arcgis.py:84-102 | nothing is issued after a failed aggregation; otherwise everything issued touches the state-month layer or the snippet, and the snippet update comes last |
| Upload.ScriptOnTable | scripts/update_arcgis.py:32-102 | the county layer's update, with the table read back, always comes first; the run stops right after it exactly when a row with a state is dated in September 1677, and otherwise ends with the snippet update carrying the given time |
| Upload.UploadScript | scripts/update_arcgis.py:21 | corrected read: with the identifier column read as text, the script acts on the cleaned table unchanged |
| Upload.UploadScriptAsWritten | scripts/update_arcgis.py:21-102 | as written: the run stops in the same cases and issues the same state-month operations as the corrected script, but the county update carries the table as pandas typed it |
| Upload.DatedRowsIgnoreIdentifiers | scripts/update_arcgis.py:54-62 | the aggregation's input does not depend on how the identifier column was typed |
| Upload.ScriptTruncatesBeforeAdds | scripts/update_arcgis.py:36-102 | whatever table was read back, in the whole trace every truncate of a layer precedes every add to it, every add follows a truncate of its layer, and the snippet update comes last |
| Upload.Stored | scripts/update_arcgis.py:45 | what the service stores of an add is at most the records sent, and only those |
| Upload.UpdateReplacesContents | scripts/update_arcgis.py:36-46 | when the service stores every feature, after one layer's update the layer holds exactly the records, whatever it held before |
| Upload.ReplayOtherLayer | scripts/update_arcgis.py:36-92 | operations on the other layer and snippet updates leave a layer's contents alone |
| Upload.ReplayOnlySent | scripts/update_arcgis.py:45 | whatever the add results, a layer only gains records that were sent, and after a leading truncate holds nothing else and no more than were sent |
| Upload.UpdateKeepsOnlyNewRecords | scripts/update_arcgis.py:36-46 | whatever the add results, after one layer's update the layer holds only records of this update, and at most as many |
| Upload.ReplayConcat | scripts/update_arcgis.py:36-102 | replaying two traces end to end is replaying the first and then the second on the results left over |
| Upload.AllStoredSplit | scripts/update_arcgis.py:45 | if the service stored every feature of a trace, it stored every feature of each of its two parts |
| Upload.TraceReplacesBothLayers | scripts/update_arcgis.py:36-102 | replaying a county update followed by what is issued after the aggregation, with every feature stored, leaves the county layer holding the county records; the state-month layer then holds the aggregate, or its old contents after a failure |
| Upload.TableReplacesBothLayers | scripts/update_arcgis.py:32-102 | when every feature is stored, the county layer ends up holding the table that was read back and the state-month layer the aggregate; after a failed aggregation the state-month layer keeps its old contents |
| Upload.ScriptReplacesBothLayers | scripts/update_arcgis.py:21-102 | corrected script: when every feature is stored, the county layer ends up holding exactly the cleaned rows, identifiers included, and the state-month layer the aggregate; after a failed aggregation the county layer is already replaced and the state-month layer keeps its old contents |
| Upload.AsWrittenCountyLayer | scripts/update_arcgis.py:21-46 | as written: when every feature is stored, the county layer ends up holding the cleaned table as pandas typed it on reading it back |
| Upload.AsWrittenUploadChangesIdentifier | scripts/update_arcgis.py:21-46 | as written: a one-row table with identifier "01001" leaves the county layer holding the row with identifier "1001", which is not the cleaned row |
| Scenarios.MaricopaRow | scripts/fetch_measles_data.py:24-37 | "Maricopa, Arizona" with value 5 becomes county "MARICOPA", state "Arizona", cases 5, the other columns unchanged |
| Scenarios.ArizonaState | scripts/fetch_measles_data.py:28-30 | the state "Arizona" is normalised to itself |
| Scenarios.TwoArizonaRowsSum | scripts/update_arcgis.py:54-68 | two Arizona rows of March 2025 with 5 and 3 cases aggregate to one row (Arizona, 2025-03, 8, 2025, 3, March) |
| Scenarios.FortyFiveHundredRecords | scripts/update_arcgis.py:36-46 | 4500 records are sent after one truncate in three adds of 2000, 2000 and 500 features |

## Left out

- `scripts/token_helper.py` is not part of this model. It reads environment variables and posts an OAuth2 request.
- The HTTP download, `os.makedirs`, and the CSV writes and reads (`scripts/fetch_measles_data.py:12-21,40-42`, `scripts/update_arcgis.py:21`) are I/O. The model starts from the parsed rows. The one typing effect of the uploader's read is modelled in `Reload`.
- The ArcGIS client calls are foreign library calls, modelled only as the operation trace in `Upload`. These are `gis.content.get`, `layers[0]`, `manager.truncate`, `edit_features` and `item.update` (`scripts/update_arcgis.py:28-29,36,45,76-77,84,91,98-102`). Authentication, item lookup and transport failures are not modelled.
- `create_gis` (`scripts/update_arcgis.py:9-13`) returns nothing, so `gis` is `None` and line 28 would raise. The trace models the run as if a connection existed.
- The timestamps from `datetime.now()` are parameters. `now` is the aggregate's `last_updated`; `snippetTime` is the later call written into the snippet. The final log line's call is left out.
- `pd.to_datetime` of the raw `date` column is not modelled. Dates are given as (year, month, day) values within pandas' nanosecond timestamp range. A date that fails to parse raises in the source before any aggregation.
- The `print` calls are logging and are left out.
- Case conversion covers ASCII letters only. Every other character counts as uncased in `upper`, `title` and the letter test.
- A missing `location_name` cannot occur in the model: the name is a string. A missing `value` or other NaN cells are also not represented, and `cases` is an unbounded integer where pandas holds 64-bit integers or floats.
- The feed's other columns are dropped by the column selection at `scripts/fetch_measles_data.py:36`, so they are not carried in `RawRow`.
- pandas' default missing-value markers are not modelled. Reading a county or state cell back turns text such as "NA" or "NULL" into a missing value.
- Transform.Transform: an empty table is treated as a split frame of width 0 and reported as a column-count error. The model does not represent pandas' exact behaviour on an empty frame.
- Reload.ReadIdsAsWritten: only a column whose every identifier is an unsigned run of decimal digits is read as numbers. pandas' wider type inference is not modelled. It also reads signed integers, decimal numbers and columns with blank cells as numbers, and those lose a leading zero too, for instance as 1001.0. The model keeps such columns as text, so `ReadIdsAsWrittenKeepsIff` covers only the digit-run case.
- Upload.AfterAggregation, Upload.ScriptOnTable: a batch rejected by the service does not stop the run, and the add results are never read. The model reflects this by making the trace independent of the results. It does not model partial per-feature failures beyond a per-feature stored flag.

## Findings

| source | as written | input that shows it | evidently intended | confidence | as-written member | corrected member |
|---|---|---|---|---|---|---|
| scripts/update_arcgis.py:21 | the cleaned CSV is read back without a column type, so an identifier column whose cells are all digits is parsed as integers | a table whose every `location_id` is a FIPS code, one of them "01001": it reaches the county layer as 1001 | keep `location_id` as text, as `scripts/fetch_measles_data.py:21` reads it, so identifiers reach the layer unchanged | medium, not executed | Upload.AsWrittenUploadChangesIdentifier | Upload.ScriptReplacesBothLayers |
