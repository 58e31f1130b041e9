# Meteorological update of a site file, in Dafny

This project models the data-merge pipeline of the ngros-database desktop
tool (`main.py`). For a selected site file, `fetch_and_update_data` does the
following:

- parses every row's `local_time` with `parse_date`;
- derives a `YYYYMMDD` date key and an hour for each row;
- submits one hourly-data request per distinct date to the NASA POWER API;
- consumes the finished requests in whatever order they complete;
- builds a dictionary of `(date, hour, value)` updates for the five parameters
  `PRECTOTCORR`, `T2M`, `RH2M`, `WS2M` and `ALLSKY_SFC_SW_DWN`;
- overwrites the matching cells of the site table with masked assignments;
- drops the derived columns and saves.

The model also covers the registry operations:

- looking up a site's coordinates;
- deleting a site;
- adding a site.

Modules, one file each:

- `Wrappers`: `Option` and `Result`.
- `Timestamps`: the date-time value and the calendar checks.
  - `parse_date` is a first-match search over four layouts. `strptime` is the
    scanner `Scan`/`ParseWith`, and `strftime` is `Render`.
  - The date key is `DateKey`.
- `Records`: the five parameters in dictionary order, the rows of a site file,
  the rows of an API response, and the `(date, hour)` keys and updates.
- `Registry`: the site list (`site_list.csv`) and its lookup, delete and append.
- `Events`: the messages the update puts on the GUI queue, and the progress
  values among them.
- `Fetching`: `unique()`, the requests, and the `as_completed` consumption loop
  (`CollectResponses`).
- `Extraction`: the nested loops that build the update dictionary
  (`ExtractUpdates`), and what its lists mean.
- `Frames`: the site table as a class `SiteFrame`.
  - It holds a row array updated in place, plus the derived `date`/`hour`
    columns.
  - Its methods are the key derivation, the masked assignment, the batch merge
    and the column drop.
  - The module also proves what the merge does.
- `Pipeline`: one run (`Run`): the early exits, the fetch, extraction and merge
  phase, the events queued, and the table written back.

The environment of a run becomes parameters of `Run`:

- the content of the site file, or None when it does not exist;
- the registry rows;
- `respond`, what `fetch_api_data` returns for each request (None for a failed
  request);
- `complete`, the order in which the requests finish, which may be any
  reordering of them.

Each response body is modelled as:

- its text, whose emptiness decides whether it is kept;
- the table that `read_csv(..., skiprows=13)` makes of it: rows with an `HR`
  value and the five parameter cells, or None when reading it raises.

Cell values are opaque and only ever copied.

Three inputs end a run early or without saving:

- A response body whose table cannot be read is not a recoverable per-date
  failure. Lines 127-134 have no `try`, so the exception ends the run:
  - no cell is updated and nothing is saved;
  - no message follows "Processing fetched data";
  - `Run` ends with `BadResponse(date)`, for the first such date in completion
    order.
- A timestamp that no layout accepts ends the run at line 93 with no further
  message, so `Run` ends with `BadTimestamp(text)`. No failure event is queued,
  and neither is any request.
- A site file with no rows ends the run at line 94. `apply` leaves the empty
  column without a datetime type, and the `.dt` accessor then raises. `Run`
  ends with `NoRows`, after "Processing site" and before any request.

The saved table keeps the parsed timestamps. `Timestamps.IsoRenderingReparses`
proves that writing them as `%Y-%m-%d %H:%M:%S` and reading them back gives
the same values. A column with a time part is written that way, so a second
update of such a saved file derives the same keys (a midnight-only column is
not; see Left out).

## Model

| member | source | states |
|---|---|---|
| Timestamps.Parse | main.py:42-51 | a datetime is returned unchanged; text is an error exactly when no layout accepts it, and the error carries that text; otherwise the result is what the first accepting layout gives, in layout order; a parsed result is a valid calendar date-time |
| Timestamps.FirstMatch | main.py:46-50 | the result is None exactly when every layout fails, and is otherwise the result of some layout |
| Timestamps.ParseWith | main.py:47-48 | anything `strptime` accepts is a valid date-time (year 1-9999, real day of the month, hour 0-23, minute and second 0-59) |
| Timestamps.ParseWithExactly | main.py:47-48 | a layout accepts text `s` giving `dt` exactly when `dt` is valid, sets every field the layout names, and renders back to `s` |
| Timestamps.ParseIdempotent | main.py:43-44 | parsing a parsed value returns it, so parsing twice gives what parsing once gave |
| Timestamps.RejectsSlashedIsoDate | main.py:46-51 | `"2023/03/01 05:00"` matches no layout and raises |
| Timestamps.ParsesDayFirstExample | main.py:46-48 | `"01/03/2023 05:00"` is read day-first as 1 March 2023, 05:00, with key `20230301` and hour 5 |
| Timestamps.DayFirstRejects | main.py:46-49 | with two-digit fields (the reading `Timestamps.ParseWith` models), a day-first layout rejects text whose third character is a digit |
| Timestamps.IsoRenderingReparses | main.py:46-48 | a valid date-time rendered as `%Y-%m-%d %H:%M:%S` parses back to itself (the earlier layouts reject it) |
| Timestamps.DateKeyExactly | main.py:94 | the date key has 8 digits, and two keys are equal exactly when the dates have the same year, month and day |
| Timestamps.DateKeyReads | main.py:94 | the date key is all digits and reads back with `%Y%m%d` as midnight of the same day |
| Timestamps.ScanRender | main.py:48 | scanning the rendering of a valid date-time gives back the fields the layout names |
| Records.RowKey | main.py:94-95 | a row's key is its own hour (0..23) and an 8-digit date that reads back with `%Y%m%d` as midnight of the row's day |
| Records.ParamIndex | main.py:126 | each parameter has its position in the dictionary order |
| Records.SetGet | main.py:139 | assigning one parameter cell changes that cell and no other |
| Registry.Lookup | main.py:82-89 | the coordinates come from the first registry row with the file name, and are None exactly when no row has it |
| Registry.Delete | main.py:406 | exactly the rows of other files remain, and none is added |
| Registry.Add | main.py:513-518 | the registry gains one final row, numbered one past the old row count, and the old rows are unchanged |
| Registry.AddKeepsNumbering | main.py:513 | appending keeps serial numbers running 1..n |
| Registry.DeleteThenLookup | main.py:406 | after deletion the file has no coordinates, and every other file keeps its coordinates |
| Registry.AddThenLookup | main.py:513-518 | after appending, a new file gets the new coordinates, while an already registered file keeps its first row's coordinates |
| Fetching.Unique | main.py:97 | each date key once, no repeats, no other values |
| Fetching.UniqueCount | main.py:97-100 | the number of requests is the number of distinct date keys |
| Fetching.CollectResponses | main.py:112-122 | the loop keeps exactly the non-empty bodies in completion order and queues exactly the fetch log of the completions |
| Fetching.FetchLogProgress | main.py:112-121 | the step counter runs 1, 2, ..., total over total, one step per completion |
| Fetching.FetchLogFetched | main.py:112-122 | there is one "Fetched data" message per completion, in completion order |
| Fetching.FetchLogFailures | main.py:115-118 | a "Failed to fetch" message names a date exactly when a completion for that date had no body or an empty one |
| Fetching.SuccessfulMember | main.py:115-116 | a response is kept exactly when its request finished with a non-empty body |
| Fetching.SuccessfulDistinct | main.py:105-116 | if each date finishes once, each date is kept at most once |
| Extraction.FirstAt | main.py:131-132 | the row found is a row of the table whose `HR` is the hour, and None means no row has that hour |
| Extraction.FirstAtIsFirst | main.py:131-132 | the row found is the first one with that hour: every earlier row has another `HR` |
| Extraction.HourUpdatesBound | main.py:130-134 | every entry a response contributes for the hours below `n` carries the response's date and an hour below `n` |
| Extraction.HourUpdatesOrdered | main.py:130-134 | a response's entries come in strictly increasing hour order, so there is at most one per hour |
| Extraction.Tables | main.py:127-128 | all tables are read exactly when every kept body is readable; otherwise the error is the first unreadable date |
| Extraction.TablesFirstError | main.py:127-128 | when every earlier body is readable, the first unreadable body decides the error of the whole extraction |
| Extraction.AppendRow | main.py:133-134 | one entry per parameter is appended to each list, valued from the same row |
| Extraction.AppendDay | main.py:130-134 | the hour loop appends exactly that response's entries to each list |
| Extraction.ExtractUpdates | main.py:126-134 | the dictionary built by the loops is the specification `Extracted` of the kept responses |
| Extraction.HourUpdatesMember | main.py:130-134 | an entry comes from a response exactly when its hour is in 0..23 and the first row of that hour carries its value |
| Extraction.CollectMember | main.py:126-134 | an entry is in a list exactly when some kept response reports it; other `HR` values and later duplicate rows contribute nothing |
| Extraction.CollectDistinctKeys | main.py:126-134 | with one response per date, no `(date, hour)` appears twice in a list |
| Extraction.CollectAligned | main.py:133-134 | the five lists have the same length and the same keys in the same positions |
| Extraction.ReportedMeaning | main.py:126-134 | with one response per date, a list holds `(k, v)` exactly when the API reported `v` for key `k` |
| Frames.ParseAll | main.py:93 | the column parses exactly when every timestamp does; otherwise the error is the first failing text |
| Frames.FirstError | main.py:93 | when every earlier timestamp parses, the first failing one decides the error of the whole column |
| Frames.CellAfter | main.py:137-139 | a cell ends either unchanged or holding the value of an update with the row's key |
| Frames.Merged | main.py:136-139 | no row is added or removed, and `local_time` and the other measured columns are unchanged |
| Frames.SiteFrame.constructor | main.py:73 | the table holds the file's rows and no derived columns |
| Frames.SiteFrame.ParseColumn | main.py:93 | the parse loop computes `ParseAll` of the rows, and every parsed value is valid |
| Frames.SiteFrame.Stamp | main.py:93 | `local_time` is replaced by the parsed values in place and the other columns are kept |
| Frames.SiteFrame.DeriveKeys | main.py:93-95 | on failure the table is unchanged; on success `local_time` is parsed and the keys are those of the parsed values |
| Frames.SiteFrame.Assign | main.py:138-139 | exactly the rows whose key equals the update's key get the update's value in that parameter |
| Frames.SiteFrame.AssignAll | main.py:137-139 | running a parameter's list leaves each row as `CellAfter` of its key |
| Frames.SiteFrame.Merge | main.py:136-139 | the rows in place become `Merged` of the old rows |
| Frames.SiteFrame.DropKeys | main.py:142 | the derived columns go and the rows stay |
| Frames.CellAfterMatched | main.py:137-139 | with distinct keys, a row whose key has an update receives that update's value |
| Frames.CellAfterIdempotent | main.py:137-139 | running a list twice leaves what running it once left |
| Frames.MergedIdempotent | main.py:136-139 | merging twice gives what merging once gives |
| Frames.MergedMeaning | main.py:126-139 | each parameter cell ends holding what the API reported for the row's `(date, hour)`, and keeps its old value where nothing was reported |
| Frames.MergedKeepsUnreported | main.py:136-139 | a row whose key nothing was reported for is unchanged |
| Frames.MergedKeepsUnfetched | main.py:115-139 | a row whose date has no kept response, such as a failed fetch, is unchanged |
| Frames.MergedSameKey | main.py:137-139 | rows sharing a reported `(date, hour)` receive the same value |
| Frames.ReportedOrderFree | main.py:112-134 | what was reported depends only on which responses were kept, not on their order |
| Frames.MergedOrderFree | main.py:112-139 | the merged table does not depend on the order the responses were kept in |
| Pipeline.Basename | main.py:80 | the site name is the part of the path after its last `/` |
| Pipeline.RequestsPerDate | main.py:97-110 | there is one request per distinct date key, none twice, and each is a one-day range at the site's coordinates |
| Pipeline.SameDayOneRequest | main.py:94-110 | rows on the same calendar day give a single request |
| Pipeline.ExampleOneRequest | main.py:93-110 | two rows on `01/03/2023` give the single request for `20230301` |
| Pipeline.PermutationDistinct | main.py:112 | a reordering of requests without repeats has no repeats |
| Pipeline.CompletionDatesDistinct | main.py:104-113 | whatever the completion order, each date finishes exactly once |
| Pipeline.CompletionOrderFree | main.py:112-139 | two completion orders agree on whether every table can be read, and then on the merged table |
| Pipeline.RunProgress | main.py:99-145 | the progress shows 0, then steps 1..total over total, then 100 once saved, and never moves backwards |
| Pipeline.Run | main.py:65-148 | a missing file, unknown coordinates, a bad timestamp or an empty file end the run before any request, with the messages queued so far; otherwise it submits one request per date, queues the fetch log, and saves the merged table or ends at the first unreadable table |
| Pipeline.ProcessFrame | main.py:93-148 | after the lookup, a bad timestamp or an empty table ends the run with only the "Processing site" message; otherwise the requests, events and written table are those `Run` promises |
| Pipeline.FetchAndMerge | main.py:97-148 | the fetch, extraction, merge and save phase yields the requests, events and written table that `Run` promises |

## Left out

- Threads, `ThreadPoolExecutor`/`as_completed`, the GUI queue's poll loop, and
  the death of the worker thread on an uncaught exception. The completion
  order is a parameter that may be any reordering, and an exception is an
  `Outcome`.
- `requests.get`, the API URL and `fetch_api_data`'s status handling. They
  become the parameter `respond`.
- pandas tokenising and type inference in `read_csv`/`to_csv`, and all file
  system access. A body's table is given as rows already read, and a saved
  table is the rows written.
- The float progress percentage at line 121. The model keeps the integer step
  and total.
- Missing parameter columns, which pandas would create on assignment. The five
  columns exist by construction.
- Missing (`NaN`) timestamps, which make `strptime` raise `TypeError` rather
  than `ValueError`. A model timestamp is always text or a datetime.
- Timestamps outside pandas' nanosecond range (years before 1677 or after
  2262), which would leave the column without a datetime type.
- `Timestamps.ParseWith`: `strptime` accepts unpadded fields and some
  whitespace variation. The model accepts exactly the zero-padded layouts.
- `Fetching.RequestsFor`: the URL built from the coordinates is not modelled.
  A request carries the coordinates and the one-day range.
- `Registry.Delete`: the contract states which rows remain, not that they keep
  their order (the function itself keeps it).
- A saved column whose timestamps are all at midnight. pandas `to_csv` writes
  such a column as dates only (`2023-03-01`), no layout at line 46 accepts
  that, and the next update of that file ends at line 93. The model takes the
  saved rows as the parsed values and does not model this rendering.
- A site file that already has its own `date` or `hour` column. Lines 94-95
  overwrite such columns and line 142 drops them before saving. The model
  assumes there are none and keeps every measured cell of a row.
- Tk widgets, plotting, averages, and the other GUI handlers of `main.py`.
