# hrrr-ingest-cli, modelled in Dafny

This project models the core of the HRRR forecast ingester. The ingester takes
the 06z run of NOAA's High-Resolution Rapid Refresh model from its public S3
bucket and extracts chosen variables at chosen points. It then stores the
values in a DuckDB table keyed by (valid time, run time, latitude, longitude,
variable). The model covers these parts:

- **Run-date resolver** (`RunDate`): `find_latest_complete_run_date` probes the
  last ten days, newest first. It returns the first day whose object for the
  last forecast hour exists. A 404 moves on to the next day, any other client
  error is re-raised, and `ValueError` is raised after ten 404s. The loop is a
  method, proved against the recursive reference `ResolveFrom`.
- **Nearest grid cell** (`Nearest`): `find_nearest_point` wraps the longitude,
  builds the squared-distance array, flattens it in row-major order, takes
  `np.argmin` (first least element) and unravels the index.
- **Extractor** (`Extractor`, with `Seqs` for the two list-building shapes):
  the nested loop of `extract_data_from_grib` over variables and points. It
  skips unknown names, failed opens and failed lookups, and emits one
  seven-column record (`Records`) per point. The loop is a method, proved
  against the reference `Extract`.
- **Record store** (`DbManager`): `create_table_if_not_exists` and
  `insert_data`, modelled as a `Connection` class with the table's rows, the
  registered `df_temp` view and the `temp_hrrr_insert` table.
  `INSERT ... ON CONFLICT DO NOTHING` is `InsertAbsent`: the stored rows
  followed by the batch rows whose key is not stored yet.
- **File cache** (`FileFetch`): `download_and_cache_file` and
  `get_grib_file_path`, modelled as a `Cache` class over the set of files, the
  set of directories and a log of downloads. The pure `Fetch` is the reference.
- **S3 path** (`Utils`, digits in `Decimal`): `get_s3_path` with its `%Y%m%d`
  and `:02` fields. The model includes a parser back and the usual round trip.
- **Catalog** (`Config`): `VARIABLE_MAP` built as a dictionary literal,
  `ALL_VARIABLES`, `RUN_HOUR`, `DEFAULT_NUM_HOURS` and the other constants.
- **`.idx` matcher** (`IdxMatcher`): the line-matching loop of `test.py`,
  proved against the reference `MatchLines`.

Calls that cannot be seen are turned into parameters:

- The S3 head request (`head`) and the download outcome (`S3`).
- The GRIB reader (`Reader`), which returns `None` where xarray or cfgrib
  raises.
- `get_grib_s3_key`, `build_grib_file_path` and `CACHE_DIR`. These are
  imported by the source but defined in none of its files. They appear as
  `keyFor` and as the fields of `FileFetch.Layout`, and are assumed only to be
  deterministic.
- The current date (`today`, a day number).

In these places the model follows the code as written:

- The date folder is created on every call, not only on a cache miss
  (file_fetch.py:16).
- A failing `INSERT` leaves the registered view and the temporary table behind.
  The insert is not wrapped in a transaction (db_manager.py:35-46).
- An empty extraction is a DataFrame without columns (hrrr_processor.py:112).
  `insert_data` then raises `KeyError` at its first line, before anything is
  registered (db_manager.py:31), and the model's `InsertData` fails with
  `MissingColumns`.
- A point whose cell falls outside the value array raises inside the per-point
  `try`, so it is skipped like a failed lookup (hrrr_processor.py:90-106).
  The coordinate arrays are indexed inside the same `try`
  (hrrr_processor.py:98-99), so `ExtractWith` checks the cell against them too
  (`CellInData`). For the nearest-cell lookup that check always holds, which
  `NearestCellInData` proves.

## Model

| member | source | states |
|---|---|---|
| RunDate.FindLatestCompleteRunDate | hrrr_processor.py:18-39 | result equals the reference resolution; at most ten probes; probe k checks day today-k, newest first; all probes but the last answered 404; success returns the last probed day, whose object exists; an S3 error is the last probe's error; `NoCompleteRun` only after ten 404s |
| RunDate.ResolveFromSuccess | hrrr_processor.py:23-33 | probing from `start` returns day today-i iff offsets start..i-1 answered 404 and offset i exists |
| RunDate.ResolveFromBound | hrrr_processor.py:23-30 | probing from offset `start` never returns a day newer than today-start |
| RunDate.ResolveFromError | hrrr_processor.py:31-36 | a non-404 error after only 404s is re-raised and stops the search |
| RunDate.ResolveFromExhausted | hrrr_processor.py:23-39 | `NoCompleteRun` iff every remaining offset answered 404 |
| RunDate.ResolveFindsFirstComplete | hrrr_processor.py:23-30 | the resolver returns today-i iff i is the first offset whose object exists, all earlier ones answering 404 |
| RunDate.ResolveStopsOnOtherError | hrrr_processor.py:31-36 | any other error before a found date aborts with that error |
| RunDate.ResolveFailsWhenNoneComplete | hrrr_processor.py:38-39 | ValueError iff all ten days answered 404 |
| RunDate.NewestCompleteRunWins | hrrr_processor.py:23-30 | with only D-3 and D-7 complete, D-3 is returned |
| Nearest.NormalizeLonRange | hrrr_processor.py:55 | a longitude in [-180, 180] lands in [0, 360); non-negative ones are unchanged, negative ones gain 360 |
| Nearest.AntimeridianNormalised | hrrr_processor.py:55 | -180 and 180 both normalise to 180 |
| Nearest.NormalizeLon | hrrr_processor.py:55 | definition as written; properties in NormalizeLonRange, AntimeridianNormalised and WestLongitudeExample |
| Nearest.WestLongitudeExample | hrrr_processor.py:55 | -88.01 is compared as 271.99 |
| Nearest.DistanceRow | hrrr_processor.py:58 | one row of distances, entry by entry the squared degree distance of that cell |
| Nearest.DistanceSq | hrrr_processor.py:58 | the distance array has the grid's shape and holds each cell's squared distance |
| Nearest.Flatten | hrrr_processor.py:59 | definition as written (C-order flattening); properties in FlattenLength and FlattenIndex |
| Nearest.FlattenLength | hrrr_processor.py:59 | flattening a grid with `cols` columns gives rows*cols entries |
| Nearest.FlattenIndex | hrrr_processor.py:59 | flat offset iy*cols+ix holds cell (iy, ix) (C order) |
| Nearest.ArgMin | hrrr_processor.py:59 | the index is in range, its element is <= every element, and < every element before it (first occurrence) |
| Nearest.Unravel | hrrr_processor.py:59 | definition as written (`np.unravel_index`); properties in UnravelBounds, RowMajorOrder and GridArgMin |
| Nearest.UnravelBounds | hrrr_processor.py:59 | an in-range flat index unravels to an in-range (row, column) that maps back to it |
| Nearest.RowMajorOrder | hrrr_processor.py:59 | a cell earlier in row-major order has a smaller flat offset |
| Nearest.GridArgMin | hrrr_processor.py:59 | the unravelled argmin of a flattened grid is in bounds, no farther than any cell, and nearer than every cell before it |
| Nearest.FlatDistances | hrrr_processor.py:58-59 | the scanned array has rows*columns entries |
| Nearest.NearestIsArgMin | hrrr_processor.py:58-59 | argmin over the flattened distances, unravelled, is a least-distance cell and the first such in row-major order |
| Nearest.FindNearestPoint | hrrr_processor.py:54-60 | None iff the coordinate arrays differ in shape or the grid is empty; otherwise an in-bounds cell whose distance to the normalised point is <= every cell's, and < every cell before it in row-major order |
| Nearest.AntimeridianSameCell | hrrr_processor.py:55-60 | a point at -180 and at 180 resolves to the same cell |
| Extractor.PointRecord | hrrr_processor.py:88-106 | a record exists iff the lookup succeeds and the cell is in the arrays; it then carries the cell's own latitude/longitude and value, the requested name, the caller's source and the file's two times |
| Extractor.ExtractDataFromGrib | hrrr_processor.py:62-112 | the records equal the reference extraction over VARIABLE_MAP with the nearest-cell lookup |
| Extractor.ExtractWith | hrrr_processor.py:62-112 | the nested loop's records equal the reference extraction for the given catalog and lookup |
| Extractor.AppendPointRecords | hrrr_processor.py:87-107 | the point loop appends exactly the records of the points whose lookup succeeds, in point order |
| Extractor.ExtractAppend | hrrr_processor.py:65-110 | extraction over a concatenated request is the concatenation of the extractions |
| Extractor.SkipNoRecords | hrrr_processor.py:65-110 | a name contributing no records can be removed from the request without changing the output |
| Extractor.UnknownVariableSkipped | hrrr_processor.py:65-68 | a name absent from the catalog yields nothing and leaves the other names' records as they are |
| Extractor.FailedOpenSkipped | hrrr_processor.py:72-110 | a variable whose open fails yields nothing and leaves the other names' records as they are |
| Extractor.OneRecordPerPoint | hrrr_processor.py:87-104 | when every lookup succeeds, exactly one record per point, the k-th being point k's |
| Extractor.AtMostOneRecordPerPoint | hrrr_processor.py:87-107 | never more records than points per variable |
| Extractor.PointRecordsProvenance | hrrr_processor.py:92-103 | every record names the variable and source, carries the file's times and is some target point's record |
| Extractor.ExtractProvenance | hrrr_processor.py:65-104 | every extracted record carries the caller's source and names a requested variable that the catalog knows |
| Extractor.SingleRecord | hrrr_processor.py:65-104 | one known name and one succeeding point give exactly that point's record |
| Extractor.NearestCellInData | hrrr_processor.py:91-92 | with a non-empty grid and a value array of the same shape, the nearest-cell lookup always yields a record |
| Extractor.SinglePointScenario | hrrr_processor.py:62-112 | one point and `surface_pressure` over a non-empty grid give exactly one record, at the nearest cell's coordinates and value |
| Seqs.FlatMapAppend | hrrr_processor.py:65-110 | appending per-variable results over a concatenated list is concatenation |
| Seqs.FlatMapSnoc | hrrr_processor.py:65-110 | one more variable appends exactly its results |
| Seqs.FlatMapSingle | hrrr_processor.py:65-110 | one variable gives exactly its results |
| Seqs.FlatMapMember | hrrr_processor.py:65-110 | every result comes from one element of the input |
| Seqs.CollectSnoc | hrrr_processor.py:87-107 | one more point appends its record if it has one |
| Seqs.CollectLength | hrrr_processor.py:87-107 | never more results than inputs |
| Seqs.CollectAll | hrrr_processor.py:87-104 | when every element has a result, results align with the elements |
| Seqs.CollectMember | hrrr_processor.py:87-107 | every result is the result of one input element |
| DbManager.FreshMembers | db_manager.py:38-42 | a row is inserted iff it is in the batch and its key is not stored |
| DbManager.FreshUnique | db_manager.py:23-42 | the inserted rows keep the batch's key distinctness |
| DbManager.InsertKeepsUnique | db_manager.py:23-42 | after the insert no two rows share the five-column key |
| DbManager.InsertAddsAbsent | db_manager.py:38-42 | stored rows are kept as a prefix, unchanged; every added row is a batch row whose key was absent; every batch row with an absent key is stored with all seven columns |
| DbManager.InsertDropsConflicts | db_manager.py:42 | a batch row whose key is stored is dropped: rows with that key afterwards are old rows |
| DbManager.InsertKeys | db_manager.py:38-42 | the keys afterwards are the old keys together with the batch's |
| DbManager.InsertIdempotent | db_manager.py:29-46 | inserting the same batch twice equals inserting it once |
| DbManager.NoFresh | db_manager.py:42 | a batch whose keys are all stored inserts nothing |
| DbManager.InsertAbsent | db_manager.py:38-42 | definition as written (`ON CONFLICT DO NOTHING`); properties in InsertKeepsUnique, InsertAddsAbsent, InsertDropsConflicts, InsertKeys and InsertIdempotent |
| DbManager.Connection.constructor | db_manager.py:6-8 | a connection to a database file in a given state, nothing registered or staged |
| DbManager.Connection.CreateTableIfNotExists | db_manager.py:11-26 | the table exists afterwards; an existing table's rows and everything else are unchanged |
| DbManager.Connection.InsertData | db_manager.py:29-46 | an empty batch: failure (`MissingColumns`), nothing changed; otherwise, with the table: success, the rows become InsertAbsent(old rows, batch), the view and the temporary table are gone; without it: failure, rows unchanged, view and temporary table left behind; the key constraint holds throughout |
| DbManager.InsertTwice | db_manager.py:11-46 | creating the table and inserting a batch twice stores InsertAbsent(old rows, batch); a non-empty batch leaves nothing staged, an empty one leaves the staging as it was |
| FileFetch.Join | file_fetch.py:15-17 | an absolute second part replaces the first; otherwise the result ends in the second part, preceded by the first with at most one added separator |
| FileFetch.DateFolder | file_fetch.py:15 | definition as written; properties in DateFolderInjective and Fetch |
| FileFetch.CachePath | file_fetch.py:17 | definition as written; properties in Fetch, CacheHit, CacheMiss and FetchTwice |
| FileFetch.Fetch | file_fetch.py:14-26 | the date folder is added; at most the cache path is added to the files; at most one download is logged, after the old ones; success returns the cache path, which exists; failure leaves nothing at that path |
| FileFetch.CacheHit | file_fetch.py:19-26 | a file at the cache path is returned with no download and no new file |
| FileFetch.CacheMiss | file_fetch.py:19-26 | nothing at the path: exactly one download, of the object's key into exactly that path; the file exists afterwards iff the download succeeds |
| FileFetch.FetchTwice | file_fetch.py:14-26 | when the download succeeds, two calls for the same date and hour perform at most one download; the second changes nothing and returns the same path |
| FileFetch.DateFolderInjective | file_fetch.py:15 | distinct run dates use distinct date folders |
| FileFetch.Cache.constructor | file_fetch.py:7 | importing the module creates CACHE_DIR, no download yet |
| FileFetch.Cache.DownloadS3File | file_fetch.py:10-11 | one download is logged; on success the path is added to the files, on failure the files are unchanged; directories unchanged |
| FileFetch.Cache.DownloadAndCacheFile | file_fetch.py:14-26 | the new state and the result equal the reference `Fetch` of the old state |
| FileFetch.Cache.GetGribFilePath | file_fetch.py:29-32 | the same state change and result as `download_and_cache_file` |
| Utils.FormatDate | utils.py:20 | `%Y%m%d` is eight digits |
| Utils.FormatHour | utils.py:19 | `:02` gives at least two characters |
| Utils.GetS3Path | utils.py:4-21 | definition as written (head, date, middle, hour, tail); properties in S3PathRoundTrip, ParseS3PathExact, S3PathInjective and ExamplePath |
| Utils.ParseS3Path | utils.py:4-21 | a parsed path is exactly the path of the parsed date and hour |
| Utils.FormatDateRoundTrip | utils.py:20 | the eight digits read back to the run date |
| Utils.FormatHourRoundTrip | utils.py:19 | the padded hour reads back to the hour, negative ones included |
| Utils.S3PathRoundTrip | utils.py:4-21 | every path parses back to its own run date and forecast hour |
| Utils.ParseS3PathExact | utils.py:4-21 | a string parses to (d, h) iff it is the path of (d, h) |
| Utils.S3PathInjective | utils.py:19-20 | distinct run dates or forecast hours give distinct paths |
| Utils.RunHourRendered | utils.py:19 | the cycle hour is rendered "06" |
| Utils.TwoDigitHours | utils.py:19 | hours 0..99 are two digits, tens then units |
| Utils.ExampleDate | utils.py:7-20 | 2025-01-01 renders as "20250101" |
| Utils.PathHeadText | utils.py:20 | the text in front of the date is the bucket URL, the S3 host and "hrrr." |
| Utils.PathMiddleText | utils.py:16-19 | the text between date and hour is "/conus/hrrr.t06z.wrfsfcf" |
| Utils.ExamplePath | utils.py:7-21 | the 2025-01-01 run at hour 0 is `hrrr.20250101/conus/hrrr.t06z.wrfsfcf00.grib2` behind the bucket's host |
| Decimal.Digits | utils.py:19-20 | the decimal rendering is non-empty, all digits, with no leading zero |
| Decimal.DigitCharValue | utils.py:19-20 | a digit character and its value convert into each other |
| Decimal.DigitsRoundTrip | utils.py:19-20 | the decimal digits of n read back to n |
| Decimal.LeadingZerosIgnored | utils.py:19-20 | zero padding does not change the value read back |
| Decimal.DigitsLength | utils.py:19-20 | a number below 10^w has at most w digits |
| Decimal.PadDigitsRoundTrip | utils.py:19-20 | a zero-padded number reads back to itself |
| Decimal.PadDigitsWidth | utils.py:19-20 | a number below 10^w is padded to exactly w characters |
| Config.CatalogNamesDistinct | config.py:30-42 | the eleven catalog names are pairwise distinct |
| Config.MapOfEntries | config.py:30-42 | a literal with distinct names maps each name to its filter and holds no other name |
| Config.VariableMap | config.py:30-42 | definition as written; properties in VariableMapEntries, AllVariables, SurfacePressureKnown and CatalogFilters |
| Config.VariableMapEntries | config.py:30-42 | VARIABLE_MAP holds exactly the catalog's eleven entries |
| Config.AllVariables | config.py:44 | ALL_VARIABLES has no duplicates, holds exactly the keys of VARIABLE_MAP, and lists the names in insertion order, each with its filter |
| Config.SurfacePressureKnown | config.py:31 | `surface_pressure` is in the catalog with filter shortName "sp" |
| Config.EntryFilterShape | config.py:31-41 | each entry filters on a text shortName; the 80 m winds also fix typeOfLevel and level 80, the others nothing else |
| Config.CatalogFilters | config.py:31-41 | the same, stated over VARIABLE_MAP |
| IdxMatcher.Split | test.py:43 | `split(":")` gives at least one part, and no part holds the separator |
| IdxMatcher.SplitJoin | test.py:43 | joining the parts with ":" gives the line back |
| IdxMatcher.SplitCount | test.py:43-44 | there is one more part than separators |
| IdxMatcher.DescriptionKey | test.py:45-47 | definition as written (fields 3 and 4 joined by ":"); properties in FirstMatchWins |
| IdxMatcher.Info | test.py:52-56 | definition as written (field 0, fields 3 and 4, the whole line); properties in FirstMatchWins |
| IdxMatcher.UpdNone | test.py:49-57 | visiting no names changes nothing |
| IdxMatcher.UpdStep | test.py:49-57 | visiting one more name records it iff its terms hold the key and it has no entry yet |
| IdxMatcher.FindVarsInfo | test.py:40-57 | the loop's result equals the reference `MatchLines` |
| IdxMatcher.MatchLine | test.py:43-57 | one line's effect equals the reference step |
| IdxMatcher.MatchNames | test.py:49-57 | the inner loop records every name whose terms hold the key and that has no entry yet |
| IdxMatcher.MatchKeysSubset | test.py:49-52 | only names with search terms are ever recorded |
| IdxMatcher.ShortLineIgnored | test.py:43-44 | a line with three or fewer ":" changes nothing |
| IdxMatcher.NeverOverwritten | test.py:51 | a recorded entry keeps its value after any later line |
| IdxMatcher.FirstMatchWins | test.py:42-57 | a name is recorded iff some line's key is among its terms, and then with field 0, fields 3 and 4 and the whole line of the first such line |

## Left out

- S3 (boto3 `head_object`, `download_file`) is left out: it is a remote service. It is taken as oracles. The temporary file boto3 writes before renaming is not modelled.
- cfgrib and xarray are left out as foreign libraries. The reader is an oracle returning the coordinate arrays, the first data variable's values and two scalar timestamps. A dataset without data variables counts as a failed open.
- pandas (`pd.DataFrame`, `pd.to_datetime`, `tz_localize`) is left out: timestamps are opaque values, and the conversions leave them as they are.
- Floating point is left out. This covers float64 rounding of the distances, NaN in `np.argmin`, and DuckDB storing latitude, longitude and value as 32-bit `FLOAT`, which can merge keys. Exact reals are used.
- NumPy broadcasting is left out: coordinate arrays of different shapes give `None`, the way a raising lookup does.
- DuckDB SQL text, transactions and connection handling are left out, because the engine is foreign. Only the table's contents and the staging objects are modelled.
- `insert_data` duplicate keys inside one batch are left out: DuckDB's behaviour for them is not visible in the code, so batches must have distinct keys. The order of rows in the SQL table is modelled as append order.
- `insert_data`'s in-place rewrite of the DataFrame's time columns is left out: it is an identity on opaque timestamps.
- `os.makedirs` creating missing parents of CACHE_DIR, and a file sitting where a directory is expected, are not modelled. Directories are a set of paths.
- `get_grib_s3_key`, `build_grib_file_path`, `timeit` and `CACHE_DIR` are defined in no file of the repository. They are parameters that are only assumed to be deterministic. The `timeit` timing is not modelled.
- `datetime.now` is left out as a clock read: `today` is a parameter. Day arithmetic is on day numbers, not calendar dates.
- Logging and `print` are left out as output-only.
- `FormatDate` covers years 1000-9999 only, because the platform's `%Y` does not pad years below 1000 the same way everywhere.
- The inner loops of `extract_data_from_grib` and of the `.idx` matcher are separate methods (`AppendPointRecords`, `MatchNames`). They keep the per-method proofs small.
- The matcher visits names in an arbitrary order, not dict order. The result is the same for every order, which the method's contract states.
- The HTTP fetch and the printing in test.py (lines 1-39 and 59-69) are not modelled, and neither is the script's local `search_terms`: only the matching loop is.
- config.py's unused `search_terms` (lines 19-25) and `setup_logging` are not modelled: the extractor does not use them.
- The sample data at hrrr_processor.py:115-136, hrrr_ingest.py (argument parsing only), test_map.py (plotting) and test_grib.py (inspection script) are not part of this model.
- Concurrency: there is none in the code.
