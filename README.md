# German residual load and day-ahead price ingestion, modelled in Dafny

This project models the two fetch scripts of the energy_charts repository.
Each script builds a CSV file of German grid data from the Energy-Charts API.

- `residual_load_with_prices.py` is the incremental hourly pipeline. One run
  does the following:
  - It reads the output file's header and last row. With the current
    seven-column schema and a readable, non-zero last timestamp, it resumes
    one hour after that row in append mode. Otherwise it rebuilds from
    2024-01-01T00:00Z in overwrite mode.
  - It walks calendar-month chunks up to `now`. For each chunk it fetches
    the 15-minute `total_power` series and the hourly `price` series.
  - It builds a per-chunk frame of net load, the renewable sum and solar.
  - It keeps only hours with exactly four quarter-hour samples, and averages
    them into hourly records.
  - It merges the hours that have both a load record and a price, in
    ascending order, and writes them. It writes nothing when there are none.
- `residual_load.py` is the older full-history variant. It fetches
  month-sized chunks from 2024-01-01 to the fixed date 2025-12-28, with
  whole-day queries that overlap by one day. It keeps the first reading seen
  for every 15-minute timestamp, and rewrites the output file with one row
  per timestamp, ascending, where residual load = net load − renewables.

Structure:

- `calendar.dfy`: the UTC calendar on Unix seconds and the month chunk
  planner (`Plan`).
- `api.dfy`: the two endpoint responses, the name → series map, and the
  renewable and solar columns.
- `csv_store.dfy`: the CSV file as an optional sequence of records, the
  `str`/`int` round trip of timestamps, and a `CsvFile` object that the
  writers mutate.
- `hourly_aggregate.dfy`: the per-chunk frame, an insertion-ordered dict,
  and `aggregate_to_hourly`.
- `series_merge.dfy`: `sorted(set & set)` and the merged rows.
- `price_store.dfy`: the header check, `get_last_timestamp`, the resume
  decision, the rows written, and the well-formedness of the file.
- `price_pipeline.dfy`: `main` of the price script, as methods over a
  `CsvFile`, proved against ghost specification functions. Its whole-run
  properties are proved as lemmas.
- `load_pipeline.dfy`: `main` of the older script, in the same style.

The two endpoints are function parameters `Query -> Option<Response>`.
`None` stands for the exception `fetch_data` raises after its retries; the
`except` clause catches it and skips the chunk. `now` is a parameter of the
price script's run.

## Model

| member | source | states |
|---|---|---|
| `Calendar.MonthStep` | residual_load.py:51-54 | The month after `ym` (December rolls over into January of the next year) starts exactly `DaysInMonth(ym)` days after `ym` starts, and at most 31 days after it. |
| `Calendar.YearMonthOf` | residual_load_with_prices.py:132-135 | `.year`/`.month` of an instant: a valid month that contains the instant. |
| `Calendar.InMonthUnique` | residual_load_with_prices.py:132-135 | An instant lies in exactly one month, so the year and month read off a datetime are well defined. |
| `Calendar.NextMonthStart` | residual_load_with_prices.py:132-135 | `next_chunk_start` is strictly after the chunk start, is 00:00 on a 1st, and is at most 31 days later. |
| `Calendar.NextMonthStartOf` | residual_load.py:51-54 | For any instant in month `ym`, the next chunk starts exactly at the start of the month after `ym`. |
| `Calendar.MonthStartIsMidnight` | residual_load.py:52-54 | Every 1st-of-month chunk start is a whole UTC day. |
| `Calendar.HourFloor` | residual_load_with_prices.py:142 | `strftime("%Y-%m-%dT%H:00Z")` is the whole hour at or before the instant, less than an hour before it. |
| `Calendar.DayFloor` | residual_load.py:58 | `strftime("%Y-%m-%dT00:00Z")` is the whole day at or before the instant, less than a day before it. |
| `Calendar.Plan` | residual_load_with_prices.py:128-137 | The chunk windows: there are none exactly when start ≥ end. The first starts at `start_date` and the last ends at `end_date`. Each starts where the previous one ended. None is empty, and none leaves [start, end). |
| `Calendar.PlanWindow` | residual_load_with_prices.py:130-137 | Every window ends at `min(next_chunk_start, end_date)`, and every window after the first starts at 00:00 on a 1st. |
| `Calendar.PlanWindowWithinMonth` | residual_load_with_prices.py:130-137 | No chunk window spans more than one calendar month. |
| `Calendar.Start2024` | residual_load_with_prices.py:102 | `datetime(2024, 1, 1, tzinfo=utc)` is the instant 1704067200. |
| `Calendar.ChunkBoundaries2024` | residual_load_with_prices.py:132-135 | Worked instances: the chunk starting 2024-01-15 is followed by 1 February, and then by 1 March, 1 April and 1 May 2024. |
| `Calendar.PlanExample` | residual_load_with_prices.py:128-137 | [2024-01-15, 2024-04-10) is fetched as exactly four windows, split at the 1sts of February, March and April. |
| `Api.SeriesMap` | residual_load_with_prices.py:153 | The dict comprehension over `production_types` succeeds exactly when every entry has a name. Otherwise the KeyError aborts the chunk. |
| `Api.SeriesMapEntries` | residual_load_with_prices.py:153 | The series map's keys are exactly the names that occur. Each name maps to the data of its last occurrence. |
| `Api.SolarValues` | residual_load_with_prices.py:159-166 | The `solar_vals` loop yields, at each index below `len(ts_list)`, the non-null Solar reading there, and 0.0 where Solar is absent, too short or null. |
| `Api.RenewableSums` | residual_load_with_prices.py:168-175 | The `r_sums` loops yield, at each index, the sum over the six renewable keys of the non-null reading at that index. A missing key, a too-short series or a null reading adds 0. |
| `Api.AbsentSeriesContributeNothing` | residual_load.py:77-83 | When no listed renewable series is present, the renewable sum at every index is 0. |
| `Api.SolarIsRenewable` | residual_load_with_prices.py:116-123 | The renewable sum is exactly Biomass + Hydro Run-of-River + Wind offshore + Wind onshore + Solar + Geothermal, so Solar is counted in it. |
| `CsvStore.Decimal` | residual_load_with_prices.py:224 | `str()` of an int is non-empty. It is all digits exactly when the int is non-negative; otherwise it is '-' followed by digits. |
| `CsvStore.ParseInt` | residual_load_with_prices.py:72 | `int()` fails on the empty string, and a negative result only comes from a leading '-'. |
| `CsvStore.ParseIntDomain` | residual_load_with_prices.py:72 | `int()` succeeds exactly on a non-empty run of ASCII digits, optionally after one '+' or '-'. A plain digit run gives its decimal value. |
| `CsvStore.ParseDecimal` | residual_load_with_prices.py:72 | `int()` of the `str()` of any integer gives that integer back. |
| `CsvStore.RowTimestampOfWritten` | residual_load_with_prices.py:223-224 | A row whose first cell was written from timestamp `ts` reads back as `ts` in `get_last_timestamp`. |
| `CsvStore.CsvFile.OpenWrite` | residual_load_with_prices.py:214 | `open(path, 'w')` leaves an existing but empty file. |
| `CsvStore.CsvFile.OpenAppend` | residual_load_with_prices.py:214 | `open(path, 'a')` keeps every record, and creates the file when it is missing. |
| `CsvStore.CsvFile.WriteRow` | residual_load_with_prices.py:223-230 | `writerow` appends exactly one record after the existing ones. |
| `HourlyAggregate.Put` | residual_load_with_prices.py:179-183 | `d[ts] = {...}`: the key is present afterwards with the new value, and every other key keeps its value. |
| `HourlyAggregate.PutKeepsKeysDistinct` | residual_load_with_prices.py:179-183 | Assigning into the dict never creates a duplicate key. |
| `HourlyAggregate.FrameUpTo` | residual_load_with_prices.py:177-183 | `chunk_15min_data` has a key exactly for the timestamps `ts_list[i]` with `i < len(load_vals)` and a non-null `load_vals[i]`. Each key holds the net load, renewable sum and solar of its last such index. |
| `HourlyAggregate.BuildFrame` | residual_load_with_prices.py:177-183 | The frame-building loop produces exactly that frame. |
| `HourlyAggregate.HourOf` | residual_load_with_prices.py:39 | `(ts // 3600) * 3600` is the whole hour containing `ts`, with floor division for negative instants. |
| `HourlyAggregate.Hourly` | residual_load_with_prices.py:31-54 | The hourly map has a key `h` exactly when four entries fall in hour `h`. Every key is a multiple of 3600, and its record is the average of those four entries. |
| `HourlyAggregate.AggregateToHourly` | residual_load_with_prices.py:31-54 | The two loops of `aggregate_to_hourly` compute exactly that map. |
| `HourlyAggregate.BucketByHour` | residual_load_with_prices.py:36-40 | `hourly_raw` holds a bucket exactly for the hours some entry falls in. Each bucket holds those entries in dict order, and the hours are listed once each. |
| `HourlyAggregate.AverageFullHours` | residual_load_with_prices.py:42-53 | Exactly the buckets of four entries are kept, each as its averaged record. Buckets of 1–3 or 5+ entries are absent. |
| `HourlyAggregate.AverageOfFour` | residual_load_with_prices.py:45-53 | Each averaged field is the sum of the four entries' values divided by 4, and residual load = net load − renewables. |
| `HourlyAggregate.GateCountsTimestamps` | residual_load_with_prices.py:36-44 | With distinct dict keys, the size of an hour's bucket is the number of distinct timestamps in that hour. So the gate asks for exactly four timestamps. |
| `HourlyAggregate.GateExactlyFour` | residual_load_with_prices.py:36-44 | On a frame with distinct keys, an hour is emitted exactly when four distinct timestamps of that hour were loaded. |
| `HourlyAggregate.HourlyKeysFromFrame` | residual_load_with_prices.py:43-48 | Every emitted hour is the hour of some timestamp of the frame. |
| `HourlyAggregate.FrameHoursFromStamps` | residual_load_with_prices.py:177-186 | Every hour emitted for a response's frame is the hour of one of the response's `unix_seconds`. |
| `SeriesMerge.SortedInts` | residual_load_with_prices.py:205 | `sorted(set)` lists each member of the set exactly once, strictly ascending, and nothing else. |
| `SeriesMerge.AscendingListingUnique` | residual_load_with_prices.py:205 | A set has only one strictly ascending listing, so the `sorted` result is determined by the set. |
| `SeriesMerge.JoinRows` | residual_load_with_prices.py:219-221 | Row `i` carries hour `i` with that hour's load record and that hour's price. |
| `SeriesMerge.Merge` | residual_load_with_prices.py:205-221 | The merged rows are strictly ascending. Their hours are exactly those in both `combined_hourly_load` and `prices_hourly`, and each row's load record and price are the ones those maps hold for its hour. |
| `SeriesMerge.MergeEmpty` | residual_load_with_prices.py:205-209 | There are no rows exactly when no hour has both a load record and a price. |
| `PriceStore.RenderRow` | residual_load_with_prices.py:222-230 | A written row has the seven columns of the schema and reads back as its own timestamp. Its second cell is that hour's ISO time. Cells 3–7 hold, in column order, the row's net load, renewables, solar, residual load and price. |
| `PriceStore.Rendered` | residual_load_with_prices.py:219-230 | One record per merged row, in order. |
| `PriceStore.LastTimestampOf` | residual_load_with_prices.py:56-76 | `get_last_timestamp` is None for a missing file, an empty header or a file without a record after the header. When it is a value, that value is `int()` of the last record's first cell. |
| `PriceStore.GetLastTimestamp` | residual_load_with_prices.py:56-76 | The reading loop returns None for a missing file, a missing or empty header, a header-only file, an empty last row, or a first cell `int()` rejects. Otherwise it returns the last row's timestamp. |
| `PriceStore.ResumePoint` | residual_load_with_prices.py:83-104 | The run appends exactly when the header equals `expected_columns` and the last timestamp is readable and non-zero. Appending starts at last + 3600; otherwise the run rebuilds from 2024-01-01. |
| `PriceStore.Written` | residual_load_with_prices.py:211-230 | Append mode keeps the old records as a prefix and adds one record per row. Overwrite mode writes the header and then one record per row. The last records are the rendered rows, in order. |
| `PriceStore.LastTimestampAfterWrite` | residual_load_with_prices.py:66-72 | After writing at least one row, the file has the expected header, and its last timestamp is the last row's hour. |
| `PriceStore.ResumeAfterWrite` | residual_load_with_prices.py:96-100 | After a write, the next run appends from one hour after the last written row, so hours missing before it are never fetched again. |
| `PriceStore.RebuildOnSchemaChange` | residual_load_with_prices.py:88-104 | Any other header forces a rebuild from 1704067200 (2024-01-01), whatever the file holds. |
| `PriceStore.RewriteWellFormed` | residual_load_with_prices.py:214-230 | A rewrite with whole-hour ascending rows yields the header followed by whole hours, strictly ascending. |
| `PriceStore.AppendWellFormed` | residual_load_with_prices.py:214-230 | Appending whole-hour ascending rows after the last row of a well-formed file keeps it well formed. |
| `PricePipeline.ChunkQuery` | residual_load_with_prices.py:142-144 | A chunk's `HH:00`–`HH:59` query starts at a whole hour, less than an hour before the window's start. It ends at minute 59 of an hour, covering the window's end at minute precision and reaching less than an hour past it. |
| `PricePipeline.ChunkLoad` | residual_load_with_prices.py:150-187 | A power response yields hourly records unless a production type has no name (the KeyError). Every record is for a whole hour that holds one of the response's timestamps. |
| `PricePipeline.PricesUpTo` | residual_load_with_prices.py:194-196 | After the first `j` pairs of the `zip`, every hour priced before is still priced, and so is every timestamp of a pair with a non-null price. |
| `PricePipeline.AddPrices` | residual_load_with_prices.py:190-196 | After a price response, every hour priced before is still priced, and so is every timestamp paired with a non-null price within the shorter array. |
| `PricePipeline.PricesUpToEntries` | residual_load_with_prices.py:191-196 | After the `zip`, a timestamp has a price exactly when it had one or a pair within the shorter array gives it a non-null price. The last such pair wins, and other prices are kept. |
| `PricePipeline.CollectPrices` | residual_load_with_prices.py:191-196 | The `zip` loop computes exactly that price map. |
| `PricePipeline.ChunkStep` | residual_load_with_prices.py:148-199 | A loop iteration never removes an hour's load record or price. It changes nothing unless the power fetch succeeds and every production type has a name, so a failed power fetch also skips the prices. |
| `PricePipeline.IngestChunk` | residual_load_with_prices.py:148-199 | One loop iteration. A failed power fetch or a nameless production type skips the chunk, price fetch included. Otherwise the chunk's hourly records overwrite earlier ones (`update`). Then, if the price fetch succeeds, its prices are added. |
| `PricePipeline.ReadResumePoint` | residual_load_with_prices.py:83-104 | The start-up code computes exactly the resume decision. |
| `PricePipeline.FetchAll` | residual_load_with_prices.py:128-202 | The chunk loop folds `IngestChunk` over the planned windows in order. |
| `PricePipeline.WriteAll` | residual_load_with_prices.py:219-230 | The row loop appends one rendered record per merged row, in order. |
| `PricePipeline.WriteRows` | residual_load_with_prices.py:211-230 | Opening in mode 'a' or 'w', writing the header when rewriting, and then the rows yields exactly `Written`. |
| `PricePipeline.RunOutcome` | residual_load_with_prices.py:106-230 | A run whose resume point is not before `now` leaves the file as it is. A run that changes the file leaves it with the expected header and a readable last timestamp. |
| `PricePipeline.Run` | residual_load_with_prices.py:78-230 | The file after `main` is the specified run outcome. It is unchanged when the resume point is not before `now` or no row merges. Otherwise the merged rows are appended or rewritten as the resume decision says. |
| `PricePipeline.AccumulateLoadHours` | residual_load_with_prices.py:128-187 | If the API returns no timestamps before a query's start, every hourly load record gathered from a whole-hour start is a whole hour at or after it. |
| `PricePipeline.AccumulateWithoutPrices` | residual_load_with_prices.py:189-196 | When every price fetch fails, `prices_hourly` stays empty. |
| `PricePipeline.NoPricesNoWrite` | residual_load_with_prices.py:205-209 | Without a single price answer the file is left unchanged, however much load data arrived. |
| `PricePipeline.RunKeepsWellFormed` | residual_load_with_prices.py:211-230 | A run leaves the file either unchanged or well formed: the expected header, then whole hours strictly ascending. This holds for a rewrite, and for an append to a well-formed file. |
| `PricePipeline.RunAdvancesResumePoint` | residual_load_with_prices.py:96-100 | Every run that writes moves the resume point strictly forward. |
| `PricePipeline.RunRecordsHoldTheirHour` | residual_load_with_prices.py:205-230 | Every record a run adds holds, under its own timestamp, that hour's ISO time, the averaged load record `combined_hourly_load` keeps for it and the price `prices_hourly` keeps for it. |
| `PricePipeline.RerunUpToDate` | residual_load_with_prices.py:96-110 | Once a run has written the last hour before the next run's instant, the next run finds the data up to date and leaves the file unchanged, whatever the endpoints would answer. |
| `LoadPipeline.EndDate` | residual_load.py:46 | The fixed end `datetime(2025, 12, 28)` is the instant 1766880000. |
| `LoadPipeline.DayQuery` | residual_load.py:58-59 | A chunk's `T00:00Z`–`T23:59Z` query starts at midnight, less than a day before the window's start. It ends at 23:59 of a day, covering the window's end at minute precision and reaching less than a day past it. |
| `LoadPipeline.ConsecutiveQueriesShareADay` | residual_load.py:58-59 | Consecutive `T00:00Z`–`T23:59Z` queries overlap by the whole first day of the next chunk. |
| `LoadPipeline.FirstWins` | residual_load.py:85-90 | The inner loop never replaces or removes an entry of `combined_data`. |
| `LoadPipeline.FirstWinsEntries` | residual_load.py:85-90 | After a chunk, a timestamp is stored exactly when it was stored before or the chunk has a non-null load reading for it. A new entry holds the chunk's first reading and its renewable sum. |
| `LoadPipeline.AddFirstReadings` | residual_load.py:85-90 | The chunk's inner loop computes exactly that map. |
| `LoadPipeline.LoadChunkStep` | residual_load.py:63-93 | A loop iteration keeps every stored entry. It changes nothing unless the fetch succeeds and every production type has a name. |
| `LoadPipeline.IngestChunk` | residual_load.py:63-93 | One loop iteration. A failed fetch or a nameless production type skips the chunk; otherwise the first-write-wins update is applied. |
| `LoadPipeline.Collect` | residual_load.py:50-96 | Once a timestamp is in `combined_data`, no later chunk changes it, the overlapping day included. |
| `LoadPipeline.CollectAll` | residual_load.py:48-96 | The chunk loop folds the chunk step over the planned windows from 2024-01-01 to the end date. |
| `LoadPipeline.LoadRow` | residual_load.py:117-123 | A written row has the five columns and reads back as its timestamp. Then come its ISO time, the entry's net load, its renewables, and net − renewables, in column order. |
| `LoadPipeline.LoadRows` | residual_load.py:117-123 | One row per listed timestamp, in order. |
| `LoadPipeline.OutputReadsBack` | residual_load.py:102-123 | After the header, the rows read back as exactly the collected timestamps, strictly ascending, one each. Each row holds that timestamp's ISO time, the net load and renewables `combined_data` keeps for it, and their difference. |
| `LoadPipeline.WriteRows` | residual_load.py:117-123 | The row loop appends one row per sorted timestamp. |
| `LoadPipeline.WriteOutput` | residual_load.py:113-123 | The file is rewritten as the header followed by the rows. |
| `LoadPipeline.LoadOutcome` | residual_load.py:98-123 | When nothing was collected the file is left as it is. Otherwise it holds the header followed by one row per collected timestamp, and those rows are the ones `OutputReadsBack` describes. |
| `LoadPipeline.Run` | residual_load.py:28-125 | The file after `main` is unchanged when nothing was collected, and otherwise rewritten with the header and the ascending rows. |

## Left out

- `fetch_data` in both scripts is not modelled: HTTP, JSON decoding, the timeout, the three retries and the back-off `sleep`. Each chunk's response is a value supplied by a function parameter, and `None` stands for the exception that escapes the retries.
- `print` logging and the per-chunk `time.sleep(1)` are not modelled. They do not affect the data.
- `datetime.now()` becomes the parameter `now`, in whole seconds: the real instant rounded down. Every start the script compares with it is a whole second, so the rounding changes two tests: `start_date >= end_date` (line 108) and `current_chunk_start < end_date` (line 130). When the real instant lies strictly inside the second that equals the resume point or a 1st-of-month chunk start, the script runs one more chunk there, querying that hour again, and the model does not. The clip `next_chunk_start < end_date` (line 137) picks the same chunk end either way.
- `isoformat()` is not rendered. The `datetime_utc` cell is `IsoTime(ts)`, and float cells are `Number(x)`. `csv` quoting and newline handling are not modelled either. Only the timestamp cell is rendered as digits, because it is the one read back.
- `int()` is modelled on an optional sign followed by ASCII digits. Surrounding whitespace, `_` separators and non-ASCII Unicode decimal digits, which Python also accepts, are not modelled.
- MW and EUR/MWh values are reals. IEEE-754 rounding of the sums and of `/ 4` is not modelled.
- The calendar is proleptic Gregorian over all integer years. Python's `datetime` range of years 1–9999 is not modelled.
- `residual_load.py` uses naive datetimes. They are treated as UTC, which is what the `Z` suffix of its query strings asks for.
- A production type's `name` of `None` stands only for a missing `"name"` key, the KeyError that skips the chunk. A JSON `null` name is not modelled: Python stores that series under the key `None` and carries on with the chunk, while the model skips it. A `null` `"data"` value is not modelled either: Python raises TypeError only where that series is used.
- The permission-error fallback filename in `residual_load.py` (lines 105-110) is not modelled, because it depends on `time.time()` and the file system's permissions. Its model writes to the one output file.
- The iteration order of the `renewable_keys` set is not modelled, because real addition does not depend on it.
- `PricePipeline.RunKeepsWellFormed`, `PricePipeline.RunAdvancesResumePoint` and `PricePipeline.AccumulateLoadHours` assume that the power endpoint returns no timestamp before its query's start. The script relies on this without checking it; without it, a run could write an hour at or before the last one already in the file.
- Idempotence of two consecutive price runs with no new remote data is proved only for the case `PricePipeline.RerunUpToDate` covers: the first run wrote the last hour before the second run's instant. In general the second run re-fetches from one hour after the last written row, with chunk boundaries different from the first run's. Relating its answers to the first run's needs a model of one remote dataset that every query cuts from. The endpoints here are independent functions of the query and do not express that.
- The other scripts of the repository are not part of this model. These are the pandas and matplotlib analyses (`solar_capture_prices.py`, `monthly_stats.py`, `monthly_scatter_plots.py`, `price_analysis.py`, `verify_calculation.py`, `verify_pos_price_2025.py`) and the API probes (`inspect_api.py`, `inspect_prices.py`).
