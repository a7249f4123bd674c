# Energy-monitoring dashboard: loaders and analysis rules in Dafny

The dashboard shows measurements from several energy-monitoring sites: the
Erentrudisstraße building monitoring, the FIS Inhauser exports, the Twin2Sim
simulation data and the KW Neukirchen hydro plant. Two kinds of code feed it.
The data loaders read CSV and Excel exports into tables. The offline analysis
scripts compare, survey and check those exports. Neither has a deep engine.
Both are built from many small deterministic rules, and this project states
and proves those rules.

A table is a list of column names plus rows of optional cells (`None` is a
missing value or `NaT`). Timestamps are whole seconds. Decoders, CSV readers,
date parsers, workbook readers and the directory tree are parameters of the
model, so every rule is proved for every reader.

Modules follow the source files:

- Shared building blocks:
  - `Strings`: the Python string operations the code uses.
  - `Order`: string order and `sorted`.
  - `Frame`: tables and the encoding × separator candidate search.
  - `Columns` and `Dates`: column access, coercion and timestamp columns.
  - `Sources`: the source kinds and the Twin2Sim header skip.
  - `Categories`: first-match keyword classification and grouping.
  - `Regions`: the seven three-set Venn regions.
  - `Spans`: the time range, duration and modal step.
  - `DateFormat`: `strptime` with `%d.%m.%Y %H:%M`.
  - `Axes`: the chart axis rules.
- The loaders:
  - `OptimizedLoader` has the TTL cache as a class.
  - `ParquetOptimizer`, `ImprovedLoader`, `PlainLoader` and `QuietLoader` follow their own loader files.
  - `Processing` covers the Twin2Sim data processor.
- The dashboard components:
  - `ColumnToggle`
  - `UiComponents`
  - `Visualization`
- The analysis scripts, one module each:
  - `MissingDataAnalysis`
  - `DetailedAnalysis`
  - `SimpleComparison`
  - `CsvComparison`
  - `ErentrudisStructure`
  - `AllFiles`
  - `FisDatasets`
  - `Durchfluss`
  - `RelevantFiles`
  - `RelevantFixed`
  - `FinalComparison`
  - `KwNeukirchen`
  - `FisInhauser`
  - `ErentrudisMonitoring`
  - `ScanDaten`
  - `FileOverview` and `FileCount`

Where the source updates state step by step, the model is imperative. Four
objects are classes with `modifies` frames: the loader with its cache, the
Parquet optimizer with its metadata, the data processor with its dataset
dictionary, and the KW Neukirchen analyzer with its file mapping. Loops are methods with invariants, and each is proved
equal to a specification function. The properties are then proved about
those functions as lemmas.

## Model

| member | source | states |
|---|---|---|
| Frame.HourlyRange | src/data_loader_improved.py:217 | pd.date_range(start='2024-01-01', periods=n, freq='H') is n stamps, the i-th 3600·i seconds after 2024-01-01 00:00 |
| Frame.Attempts | src/data_loader_improved.py:89-98 | the search tries every encoding × separator pair, encodings outside and separators inside |
| Frame.FirstNonEmpty | src/data_loader_improved.py:86-98 | the nested encoding/separator loop ends with the search result over all attempts in loop order |
| Frame.SearchStopsAtFirstNonEmpty | src/data_loader_improved.py:93-98 | the search settles on the first non-empty frame read; later attempts are not made |
| Frame.SearchKeepsLastRead | src/data_loader_improved.py:91-101 | with no non-empty read, the frame kept is the last one read; nothing (an empty frame returned) only when every read raised |
| Frame.SearchKeeps | src/data_loader_improved.py:86-101 | any property of every frame a read can produce holds of the frame the search keeps |
| Frame.Present | scripts/analyze_kw_neukirchen.py:150 | dropna keeps exactly the present values, in order |
| Frame.PresentRows | src/data_loader.py:118 | the rows dropna keeps number the rows minus the missing ones |
| Frame.PresentRowsSound | src/data_loader.py:118 | every index dropna keeps names a present row, and the kept indices ascend |
| Frame.PresentRowsComplete | src/data_loader.py:118 | every row with a present value is kept |
| Sources.MissingCells | src/data_loader_improved.py:61 | the missing-cell count of a row is zero exactly when no cell is missing |
| Sources.SkipHeaderRows | src/data_loader_improved.py:60-64 | a Twin2Sim frame with more than 2 rows whose first row is missing in more than half the columns loses its first two rows and keeps its column names; any other frame is unchanged |
| Sources.SearchCsv | src/data_loader_improved.py:29-98 | the per-source search (encodings outside, the source's separator order inside, Twin2Sim header skip applied to every read) ends with SearchOutcome, the first non-empty read else the last read |
| Columns.ColumnIndex | src/data_loader.py:100-107 | the position of the first column with that exact name; none exactly when no column has it |
| Columns.ReplaceColumn | src/data_loader_improved.py:111-112 | df[col] = ... replaces one column's cells and leaves every other column untouched |
| Columns.SetColumn | src/data_loader_improved.py:170 | df['Date'] = cells overwrites the Date column or appends one, other columns untouched |
| Columns.SelectRows | src/data_loader.py:118 | df.iloc[keep] holds exactly the chosen rows in order with the same columns |
| Columns.ToNumericCell | src/data_loader_improved.py:112 | pd.to_numeric(errors='coerce') on a cell gives a number or a missing value and keeps numbers |
| Columns.DecimalPoint | src/data_loader_improved.py:111 | on a text cell every ',' becomes '.' and every other character stays in place; any other cell is returned unchanged |
| Columns.DecimalPointIdempotent | src/data_loader_improved.py:111 | replacing the decimal commas a second time changes nothing |
| Columns.NumericColumn | src/data_loader_improved.py:110-112 | every cell of a rewritten column is the comma-replaced cell coerced to a number; no object cell remains |
| Columns.CoerceNumericColumns | src/data_loader_improved.py:107-112 | the loop rewrites exactly the object columns not in the exempt list, each by comma replacement and numeric coercion, and leaves every other column as it was |
| Columns.CoerceAtStep | src/data_loader_improved.py:107-112 | one turn of the loop rewrites column j exactly when it is an object column outside the exempt list |
| Columns.ToNumericColumn | src/data_loader_improved.py:258-260 | pd.to_numeric over a column coerces every cell |
| Columns.ToNumericIdempotent | src/data_loader_improved.py:258-260 | coercing a coerced column again changes nothing |
| Columns.Rename | src/data_loader_improved.py:234-246 | df.rename(columns=mapping) renames exactly the mapped names and keeps the others in place |
| Columns.Renamed | src/data_loader_improved.py:246 | renaming keeps the rows and maps each column name through the mapping, leaving unmapped names as they are; a well-formed frame stays well-formed |
| Columns.FirstLoaded | src/data_loader_improved.py:225-231 | try openpyxl, except default, except xlrd: the first attempt that did not raise gives the frame; none exactly when all raised |
| Columns.CoerceNamed | src/data_loader_improved.py:257-260 | each listed name present in the frame is coerced to numbers and no other column changes; a listed name present twice makes pandas raise |
| Columns.CoerceOneStep | src/data_loader_improved.py:258-260 | coercing one more listed, non-duplicated name extends the coerced prefix of the list |
| Columns.DatasetKey | src/data_loader.py:212 | a dataset key is the name's first 30 characters: at most 30 long, a prefix of the name, the whole name when it fits |
| Columns.PrefixedKey | src/data_loader_improved.py:304-350 | f"{prefix}{stem}"[:30] is at most 30 long, starts with the prefix when it fits, and is the whole text when that fits |
| Columns.KeysCollide | src/data_loader_improved.py:297-298 | two names agreeing on their first 30 characters get the same key, so the later file replaces the earlier in data |
| Columns.Register | src/data_loader_improved.py:286-351 | data[key] = value in order: the keys are exactly the entries' keys and each key holds the value of its last entry |
| Columns.KeysStep | src/data_loader_improved.py:288 | assigning one more entry adds its key to the key set |
| Columns.LatestStep | src/data_loader_improved.py:288 | assigning one more entry makes it the latest value of its key |
| Columns.Without | scripts/compare_durchfluss.py:166 | removing a name keeps exactly the other names |
| Dates.ToDatetime | src/data_loader_improved.py:170 | pd.to_datetime(errors='coerce') keeps existing stamps, gives NaT for missing cells and parses the rest |
| Dates.StampCells | src/data_loader_improved.py:170 | a timestamp column stored back into the frame has a missing cell exactly where it held NaT |
| Dates.ReconvertIsIdentity | src/data_loader_improved.py:168-176 | converting an already converted column gives it back, whatever the format |
| Dates.HourlyDates | src/data_loader_improved.py:209-217 | the hourly range has n stamps, none missing, the i-th at 2024-01-01 + i hours |
| Dates.NoMissingIffAllPresent | src/data_loader_improved.py:215 | isna().sum() == 0 exactly when every row holds a stamp, and == n exactly when none does (isna().all()) |
| Dates.EnsureDate | src/data_loader_improved.py:214-217 | on return the frame has a Date column with some stamp; an absent or all-missing Date becomes the hourly range and nothing else changes; a usable Date is kept |
| Dates.DropMissingDates | src/data_loader.py:117-118 | dropna(subset=['Date']) after Date is stored keeps exactly the rows with a stamp: the k-th kept row is the k-th row with a stamp, in ascending row order, and the columns are those after the store |
| Dates.DroppedDatesComplete | src/data_loader.py:117-118 | after the drop every remaining row holds a stamp in Date |
| Dates.DroppedFrameHasDates | src/data_loader.py:117-118 | after the drop the Date column is usable whenever a row remains |
| Dates.FirstNameMatch | src/data_loader_improved.py:136-143 | the timestamp column is the first column whose lowercased name contains some lowercased candidate; none exactly when no column does |
| Dates.ScanColumns | src/data_loader_improved.py:137-143 | the nested loop (columns outside, candidates inside, break at the first hit) finds exactly FirstNameMatch |
| OptimizedLoader.CacheKeyIgnoresColumnOrder | src/data_loader_optimized.py:42-49 | the pre-hash key sorts the requested columns, so two requests for the same columns in any order give the same key |
| OptimizedLoader.FreshEntryValidity | src/data_loader_optimized.py:37-56 | an entry stamped at t is valid at `now` exactly when now - t < 300 (cache_ttl) |
| OptimizedLoader.Oldest | src/data_loader_optimized.py:72 | the keys picked for eviction are at most five of the cache's keys (fewer only when the cache holds fewer) |
| OptimizedLoader.OldestAreOldest | src/data_loader_optimized.py:72 | every key picked for eviction has a timestamp no later than every key that is not picked |
| OptimizedLoader.NewestSurvives | src/data_loader_optimized.py:69-75 | among more than five distinct keys, a key strictly newer than all others is never among the five oldest |
| OptimizedLoader.OldestDistinctMembers | src/data_loader_optimized.py:72-75 | the evicted keys are distinct keys of the cache |
| OptimizedLoader.AddKey | src/data_loader_optimized.py:66-67 | assigning a key adds it to the dict's key set and keeps the keys distinct |
| OptimizedLoader.Without | src/data_loader_optimized.py:73-75 | deleting keys removes exactly those keys from the key order and keeps it distinct |
| OptimizedLoader.SliceBound | src/data_loader_optimized.py:287-290 | a Python slice bound (negative counts from the end) is clamped into [0, n] |
| OptimizedLoader.PageContents | src/data_loader_optimized.py:286-290 | page p >= 1 holds the rows from (p-1)*size on, min(size, max(0, n - start)) of them |
| OptimizedLoader.SliceFrom | src/data_loader_optimized.py:290 | a slice from a non-negative start holds min(len, max(0, n - start)) rows, each the row at start + i |
| OptimizedLoader.PagesAdjoin | src/data_loader_optimized.py:286-290 | pages p and p+1 of size s together are the rows of page covering [(p-1)s, (p+1)s) |
| OptimizedLoader.PageZeroEmpty | src/data_loader_optimized.py:286-290 | page 0 is empty: its end index is 0 |
| OptimizedLoader.DowncastInt | src/data_loader_optimized.py:250-260 | an integer column becomes int8, int16 or int32, the narrowest type whose bounds strictly contain its min and max; it is kept only when none does |
| OptimizedLoader.FirstContaining | src/data_loader_optimized.py:160-166 | the index of the first file whose lowercased name contains the lowercased pattern; none exactly when no file does |
| OptimizedLoader.FindParquetFile | src/data_loader_optimized.py:126-170 | the first file matching the mapped name pattern is returned; without one, the first file containing the dataset name; nothing when the directory is absent or no file matches |
| OptimizedLoader.SaveKeepsConsistent | src/data_loader_optimized.py:64-75 | a save keeps memory_cache and cache_timestamps on the same key set and the cache at 10 entries or fewer |
| OptimizedLoader.EvictKeepsConsistent | src/data_loader_optimized.py:69-75 | evicting the five oldest of eleven entries leaves six, on equal key sets in both dicts |
| OptimizedLoader.SaveEvictsOldest | src/data_loader_optimized.py:69-75 | a key a save evicts has a timestamp no later than any key the save keeps |
| OptimizedLoader.EvictedIsOldest | src/data_loader_optimized.py:72-75 | a key removed by the eviction is no newer than any key left |
| OptimizedLoader.SaveKeepsNewKey | src/data_loader_optimized.py:66-75 | when every stored stamp is older than `now`, the key just stamped `now` is not among the five oldest |
| OptimizedLoader.SaveKeepsNewEntry | src/data_loader_optimized.py:64-75 | with a clock past every stored stamp, the frame just saved is still cached after the eviction |
| OptimizedLoader.SaveParts | src/data_loader_optimized.py:64-75 | the save loop on the two dicts yields the state AfterSave describes and keeps them consistent |
| OptimizedLoader.DeleteKeys | src/data_loader_optimized.py:73-75 | the deletion loop removes exactly the doomed keys from both dicts and from the key order |
| OptimizedLoader.OptimizedDataLoader.GetFromCache | src/data_loader_optimized.py:51-62 | the cached frame is returned exactly when the key is in both dicts and younger than 300 seconds; otherwise nothing |
| OptimizedLoader.OptimizedDataLoader.SaveToCache | src/data_loader_optimized.py:64-75 | the new state is AfterSave of the old one (stamp, store, evict the five oldest past ten), the invariant holds and load_times is unchanged |
| OptimizedLoader.OptimizedDataLoader.ClearCache | src/data_loader_optimized.py:332-336 | both dicts become empty and load_times is kept |
| OptimizedLoader.OptimizedDataLoader.LoadDatasetOptimized | src/data_loader_optimized.py:77-124 | a valid cache hit returns the cached frame and changes nothing; a miss returns the loaded frame, caches it only when non-empty, and appends the load time |
| OptimizedLoader.OptimizedDataLoader.LoadDatasetPaginated | src/data_loader_optimized.py:267-290 | the whole dataset goes through the cached load; the result is that frame's page, or an empty frame when nothing or an empty frame was loaded; the cache changes as that load changes it |
| OptimizedLoader.OptimizedDataLoader.constructor | src/data_loader_optimized.py:23-40 | a new loader starts with both cache dicts and load_times empty |
| ParquetOptimizer.ParquetNameInjective | src/data_optimizer.py:73 | the Parquet name stem + '_' + hash[:8] + '.parquet' determines the stem and the eight-character hash prefix |
| ParquetOptimizer.IndexColumn | src/data_optimizer.py:231-244 | the index column is the first of Date, DateTime, Datum, Datum + Uhrzeit, Zeit, ZEIT_VON_UTC, Zeitstempel that is present and convertible; none exactly when no candidate is both |
| ParquetOptimizer.FirstIndex | src/data_optimizer.py:235-244 | the candidate scan from a position returns the first present and convertible candidate, skipping every earlier one |
| ParquetOptimizer.ColumnsAfterIndexing | src/data_optimizer.py:246-248 | _add_indices keeps every column and adds one 'Date' copy exactly when Date is absent and some candidate became the index |
| ParquetOptimizer.ChooseSeparator | src/data_optimizer.py:133-175 | the separator is the first of ';', ',', tab whose 100-row sample has more than one column and whose full read succeeds; none (the default read) exactly when no separator qualifies |
| ParquetOptimizer.NormaliseDecimal | src/data_optimizer.py:150-157 | an object column is unchanged when no cell holds a comma; otherwise every present cell has each ',' replaced by '.', so no cell keeps a comma, and missing cells stay missing |
| ParquetOptimizer.IntTarget | src/data_optimizer.py:199-216 | a non-negative column goes to uint8/uint16/uint32 only when its maximum is below 255/65535/4294967295; a column with a negative value goes to int8/int16/int32 only inside strict bounds; otherwise the dtype is kept |
| ParquetOptimizer.IntTargetFirstFit | src/data_optimizer.py:203-216 | each integer target is chosen exactly when its test passes and every earlier test of the column's branch fails; the dtype is kept exactly when no test passes |
| ParquetOptimizer.ObjectTarget | src/data_optimizer.py:223-227 | an object column becomes categorical exactly when distinct/total < 0.5 |
| ParquetOptimizer.OptimizeColumn | src/data_optimizer.py:196-227 | one column's rewrite: integers stay integer-typed, object columns turn categorical exactly under the 50% rule, other dtypes are kept |
| ParquetOptimizer.OptimizeDatatypes | src/data_optimizer.py:194-229 | the loop rewrites every column by the one-column rule, in order, and keeps the column count |
| ParquetOptimizer.LoaderIntTarget | src/data_optimizer.py:164-167 | an int64 column of the optimised CSV read becomes int32 only when all values lie in [0, 2147483647) |
| ParquetOptimizer.DataOptimizer.constructor | src/data_optimizer.py:23-35 | the optimizer starts with the metadata it loaded |
| ParquetOptimizer.DataOptimizer.ConvertToParquet | src/data_optimizer.py:57-128 | conversion is skipped and the existing name returned exactly when force is false, the file exists and the stem's recorded hash is the same; an empty or failed load returns none and leaves the metadata untouched; a successful write records hash, rows and columns for the stem |
| ParquetOptimizer.ConversionThenReuse | src/data_optimizer.py:77-118 | after a successful conversion, converting the unchanged file again without force reuses it, and a changed hash does not |
| ImprovedLoader.Candidate | src/data_loader_improved.py:29-98 | the frame of the search uses ',;\t' for Erentrudis and FIS and ';,\t' otherwise, and is well formed |
| ImprovedLoader.FallbackNeverMatches | src/data_loader_improved.py:145-150 | a first column the case-insensitive scan rejected is never accepted by the date/zeit/time/datum fallback |
| ImprovedLoader.CoveredKeywordsNeverMatch | src/data_loader_improved.py:137-150 | keywords that are lowercase forms of scanned candidates add no match of their own |
| ImprovedLoader.FallbackKeywordsCovered | src/data_loader_improved.py:127-149 | each fallback keyword is the lowercase form of a candidate name (Date, Zeit, Time, Datum) |
| ImprovedLoader.DateSourceIsFirstMatch | src/data_loader_improved.py:136-150 | the timestamp column (scan, then fallback) is exactly the first column the scan accepts |
| ImprovedLoader.FirstPassingFormat | src/data_loader_improved.py:168-176 | the first format under which more than half of the rows parse; none exactly when no format qualifies |
| ImprovedLoader.AsWrittenWithoutOverwrite | src/data_loader_improved.py:168-184 | when the timestamp column is not called Date, the loop as written gives the first passing format's parse, else the flexible parse |
| ImprovedLoader.ConvertedColumnStays | src/data_loader_improved.py:168-184 | once Date holds converted stamps, no later format or the flexible parse changes it |
| ImprovedLoader.OverwritingKeepsFirstAttempt | src/data_loader_improved.py:168-184 | when the timestamp column is itself Date, the loop always ends with the first format's parse |
| ImprovedLoader.DateNamedColumnLosesLaterFormats | src/data_loader_improved.py:157-184 | a Date column holding '01.01.2024 00:00' (only the fifth format reads it) ends with NaT as written, and with the stamp under the intended parse |
| ImprovedLoader.ParseErentrudisDates | src/data_loader_improved.py:155-184 | the corrected format loop parses the original column with each format and returns the first parse valid for more than half of the rows, else the flexible parse |
| ImprovedLoader.ParsedDates | src/data_loader_improved.py:152-191 | the parsed Date column has one entry per row |
| ImprovedLoader.ParsedDatesAsWritten | src/data_loader_improved.py:168-184 | for every Erentrudis frame whose timestamp column is not named Date, the loop as written stores exactly the parse the model uses |
| ImprovedLoader.RepairDates | src/data_loader_improved.py:193-209 | storing the parse in Date and applying the invalid-timestamp rule gives a well-formed frame |
| ImprovedLoader.RepairFollowsRule | src/data_loader_improved.py:193-217 | no invalid stamp: Date is the parse; 0 < invalid < 10%: exactly the invalid rows are dropped; otherwise all rows stay, Date is interpolated when more than 2 are valid and becomes the hourly range from 2024-01-01 when at most 2 are |
| ImprovedLoader.UsableWhenSomePresent | src/data_loader_improved.py:215 | a Date column holding some stamp (or a frame without rows) needs no synthetic range |
| ImprovedLoader.Processed | src/data_loader_improved.py:121-219 | the processed frame exists exactly when the frame has columns (df.columns[0] raises otherwise) and always has a usable Date |
| ImprovedLoader.ProcessDatetimeColumns | src/data_loader_improved.py:121-219 | exists exactly when the frame has columns; keeps the columns (adding Date at most); without a timestamp column only the hourly Date is added; otherwise the invalid-timestamp rule holds for the parsed column |
| ImprovedLoader.FindDateColumn | src/data_loader_improved.py:133-150 | the nested scan and the first-column fallback pick the column DateSource names |
| ImprovedLoader.ParseDateColumn | src/data_loader_improved.py:152-191 | Erentrudis uses the first format valid for more than half of the rows, else the day-first flexible parse; other sources use the flexible parse |
| ImprovedLoader.LoadCsvFlexible | src/data_loader_improved.py:25-119 | an empty frame when nothing was read or the frame has no columns; otherwise a frame with a usable Date, no more rows than read, every column read kept, and every object column outside Date, DateTime, Datum + Uhrzeit, Datum, Zeit comma-replaced and coerced |
| ImprovedLoader.WertNeverSurvivesRename | src/data_loader_improved.py:234-260 | WERT is always renamed to Value, so its entry in the numeric list never applies |
| ImprovedLoader.ExcelDated | src/data_loader_improved.py:248-254 | the Excel Date conversion keeps the columns and leaves a frame without Date unchanged |
| ImprovedLoader.ExcelDatedDates | src/data_loader_improved.py:249-254 | Date becomes the parsed stamps; when 0 < invalid < 10% of rows exactly the invalid rows are dropped and every remaining row holds a stamp; otherwise all rows stay |
| ImprovedLoader.LoadExcelFlexible | src/data_loader_improved.py:221-267 | empty when no engine reads or when a duplicated Date or numeric column makes pandas raise; otherwise the first engine's frame renamed, with the Date rule applied and exactly the listed numeric columns coerced |
| ImprovedLoader.MonitoringKey | src/data_loader_improved.py:297 | a monitoring key has at most 30 characters and no '_' |
| ImprovedLoader.FisWorkbookKey | src/data_loader_improved.py:321-322 | a FIS workbook key starts with 'hauptdaten_' and is not truncated |
| PlainLoader.TryColumn | src/data_loader.py:108-128 | one candidate: the parse is stored as Date; with gaps and some stamps it is interpolated, and a raising interpolation leaves the stored Date and moves on; otherwise the rows still lacking a stamp are dropped and the column is accepted |
| PlainLoader.ScanCandidates | src/data_loader.py:100-128 | the candidate loop never adds rows; when nothing is accepted the rows are all kept and at most a Date column was added |
| PlainLoader.Fallback | src/data_loader.py:130-139 | the first-column fallback applies exactly when the loop accepted nothing and the first column's lowercased name contains date, zeit or time; otherwise the frame is unchanged |
| PlainLoader.Finish | src/data_loader.py:141-144 | the hourly Date from 2024-01-01 is added exactly when no column was found and the frame has rows; an empty frame gets no Date |
| PlainLoader.FallbackOrHourly | src/data_loader.py:130-144 | after a loop that accepted nothing, the first-column fallback and then the hourly index give Finish(Fallback(..)), with no more rows than the frame the loop left |
| PlainLoader.ProcessedFrame | src/data_loader.py:95-146 | the processed frame is well-formed and has no more rows than the input |
| PlainLoader.ProcessDatetimeColumns | src/data_loader.py:95-146 | the loop, the fallback and the hourly index give ProcessedFrame, with no more rows than the input |
| PlainLoader.AcceptedHasNoMissingDates | src/data_loader.py:113-125 | a column accepted by the loop leaves only rows holding a stamp in Date |
| PlainLoader.FoundDatesComplete | src/data_loader.py:113-139 | whenever a timestamp column was found, by the loop or the fallback, every row of the result holds a stamp |
| PlainLoader.FirstPresentCandidateWins | src/data_loader.py:100-107 | when interpolation does not raise, the loop settles on the first name of the fixed list that is an exact column name |
| PlainLoader.NoCandidateLeavesFrame | src/data_loader.py:106-107 | when no candidate is a column name the loop leaves the frame as it was |
| PlainLoader.Candidate | src/data_loader.py:35-74 | Erentrudis files are searched with ',' only, every other source with ';', ',', tab |
| PlainLoader.LoadCsvFlexible | src/data_loader.py:25-93 | an empty frame when nothing was read; otherwise the processed frame with every object column except Date comma-replaced and coerced to numbers |
| PlainLoader.ExcelDates | src/data_loader.py:175-176 | the converted Date column has one entry per row |
| PlainLoader.LoadExcelFlexible | src/data_loader.py:148-193 | empty when no engine reads or a duplicated Date or numeric column raises; otherwise the renamed sheet with every row lacking a Date stamp dropped and exactly the listed numeric columns coerced |
| PlainLoader.CoercedSheetKeepsDates | src/data_loader.py:175-186 | after the drop and the coercion, the columns are the renamed ones, the row count is the rows minus the unparsed dates, and every Date cell holds a stamp |
| PlainLoader.Key | src/data_loader.py:212-258 | every dataset key is its full name cut to 30 characters: at most 30 long, a prefix of the full name, the full name when it fits |
| QuietLoader.Candidate | src/data_loader_quiet.py:42-60 | every source tries the five encodings in order with ',', ';', tab inside, keeping the first non-empty frame; the result is well formed |
| QuietLoader.ConvertedDates | src/data_loader_quiet.py:81-98 | when the in-order scan finds a timestamp column, its parse has one entry per row |
| QuietLoader.ApplyDropRule | src/data_loader_quiet.py:95-104 | the rows lacking a stamp are dropped only when 0 < invalid < 10% of rows; otherwise the row count is unchanged |
| QuietLoader.ProcessDatetimeColumns | src/data_loader_quiet.py:79-112 | scan, conversion, the under-10% drop and the hourly range give ProcessedFrame; the result always has a usable Date, and loses rows exactly when the drop rule applies |
| QuietLoader.DroppedRowsAllDated | src/data_loader_quiet.py:101-104 | when rows are dropped, every remaining row holds a stamp |
| QuietLoader.LoadCsvFlexible | src/data_loader_quiet.py:39-77 | empty when nothing was read; otherwise the processed frame, with a usable Date, whose object columns outside Date, DateTime, Datum + Uhrzeit, Datum, Zeit are comma-replaced and coerced |
| QuietLoader.EngineFor | src/data_loader_quiet.py:117-129 | openpyxl unless the lowercased path ends in '.xls'; xlrd for '.xls' when installed, and no engine (an empty frame) when it is missing |
| QuietLoader.XlsxIsNotXls | src/data_loader_quiet.py:119-121 | a path ending in '.xlsx' never ends in '.xls', so .xlsx files always get openpyxl |
| QuietLoader.LoadExcelFlexible | src/data_loader_quiet.py:114-149 | empty when there is no engine, the read raises, or Date is duplicated; otherwise the renamed sheet with all rows kept, Date replaced by its parse, and every other column unchanged |
| QuietLoader.IsVerbose | src/data_loader_quiet.py:25 | verbose only when DASHBOARD_VERBOSE is set to a four-letter value lowercasing to 'true' |
| QuietLoader.LogLine | src/data_loader_quiet.py:27-37 | a line is printed exactly when verbose; it is the level's prefix followed by the message, and the bare message for info |
| QuietLoader.Tagged | src/data_loader_quiet.py:157-158 | the copy keeps every row and carries the dataset key under 'Quelle' on every row |
| QuietLoader.Selected | src/data_loader_quiet.py:153-159 | the selected copies are empty exactly when no non-empty dataset's key contains the pattern case-insensitively; each carries a 'Quelle' column |
| QuietLoader.SelectedAppend | src/data_loader_quiet.py:155-159 | one more dataset adds its tagged copy at the end exactly when it matches |
| QuietLoader.UnionInOrder | src/data_loader_quiet.py:162 | the concatenated columns are the union of the frames' columns in order of first appearance, each once |
| QuietLoader.AllColumnsHas | src/data_loader_quiet.py:162 | every column of every concatenated frame is a column of the result |
| QuietLoader.Realign | src/data_loader_quiet.py:162 | pd.concat lays each row out under the union of columns, taking each cell by name (missing where the frame lacks the column) |
| QuietLoader.Concat | src/data_loader_quiet.py:162 | the concatenation is a well-formed frame |
| QuietLoader.SplitIsPermutation | src/data_loader_quiet.py:163-164 | rows with a Date followed by rows without one are a permutation of the rows |
| QuietLoader.SortRowsByDate | src/data_loader_quiet.py:163-164 | sort_values('Date') returns a permutation of the rows, ascending by Date with missing dates last |
| QuietLoader.DatedFirstIsOrdered | src/data_loader_quiet.py:164 | ascending dated rows followed by undated rows are in the order sort_values leaves |
| QuietLoader.Aggregate | src/data_loader_quiet.py:161-168 | the aggregate is sorted by Date whenever it has a Date column |
| QuietLoader.AggregateKwDatasets | src/data_loader_quiet.py:151-168 | the loop over the dictionary, the concatenation and the sort give Aggregate |
| QuietLoader.ConcatRowCount | src/data_loader_quiet.py:161-162 | the concatenation has as many rows as the matching datasets together |
| QuietLoader.AggregateRowCount | src/data_loader_quiet.py:161-166 | the aggregate's row count is the sum of the matching datasets' row counts |
| QuietLoader.NoMatchNoRows | src/data_loader_quiet.py:155-156 | with no matching dataset there are no rows to aggregate |
| QuietLoader.AggregateEmptyIffNoMatch | src/data_loader_quiet.py:161-168 | the aggregate is the empty frame exactly when no non-empty dataset's key contains the pattern |
| QuietLoader.ConcatRowsTagged | src/data_loader_quiet.py:155-162 | every concatenated row carries under 'Quelle' the key of the matching dataset it came from |
| QuietLoader.AggregateRowsTagged | src/data_loader_quiet.py:155-166 | after the sort every aggregated row is still tagged with the key of its dataset |
| MissingDataAnalysis.RunEnd | scripts/missing_data_analysis.py:120-129 | from a missing row, the run of missing rows extends to the returned index and stops there (the next row is present or the column ends) |
| MissingDataAnalysis.BlocksAreMaximalRuns | scripts/missing_data_analysis.py:115-129 | the reference blocks are exactly the maximal runs of missing rows: ascending, disjoint and separated, inclusive bounds within [0, n-1], covering every missing row |
| MissingDataAnalysis.NoBlocksIffNothingMissing | scripts/missing_data_analysis.py:111-131 | there are no blocks exactly when no row is missing |
| MissingDataAnalysis.DetectMissingBlocks | scripts/missing_data_analysis.py:116-129 | the in_block/block_start scan produces exactly the reference blocks, a run reaching the end closing at n-1 |
| MissingDataAnalysis.ScatteredUnreachable | scripts/missing_data_analysis.py:111-139 | 'Keine fehlenden Werte' exactly when nothing is missing; otherwise the block sentence; 'Zufällig verteilt' is never returned |
| MissingDataAnalysis.SingleBlockNamesAllMissingRows | scripts/missing_data_analysis.py:132-133 | when there is one block, a row is missing exactly when it lies between the block's bounds |
| MissingDataAnalysis.DetectMissingPattern | scripts/missing_data_analysis.py:109-139 | detect_missing_pattern returns PatternText: no-missing text, one-block text, block count for 2-4, 'Verteilt über k Bereiche' for 5 or more |
| MissingDataAnalysis.Marked | scripts/missing_data_analysis.py:51 | the missing rows are listed ascending and each is a missing row |
| MissingDataAnalysis.MarkedComplete | scripts/missing_data_analysis.py:51 | every missing row is listed |
| MissingDataAnalysis.MissingMask | scripts/missing_data_analysis.py:46-111 | isnull() marks exactly the missing cells |
| MissingDataAnalysis.MissingInfoOf | scripts/missing_data_analysis.py:45-62 | a column has an entry exactly when something is missing; its count equals the rows affected, its percentage is count/n·100, and at most ten example rows come from the missing rows |
| MissingDataAnalysis.ExamplesAreFirstMissingRows | scripts/missing_data_analysis.py:51-54 | the example rows are the first ten missing rows, all of them when there are at most ten |
| MissingDataAnalysis.DescribeMissing | scripts/missing_data_analysis.py:45-62 | one column's pass records MissingInfoOf, with the pattern found by the block scan |
| MissingDataAnalysis.DuplicateMask | scripts/missing_data_analysis.py:65 | df.duplicated() marks exactly the rows equal to an earlier row |
| MissingDataAnalysis.DuplicatesOf | scripts/missing_data_analysis.py:64-72 | the duplicates entry exists exactly when some row repeats an earlier one; its count is positive and it lists at most ten rows, each a repeat |
| MissingDataAnalysis.Values | scripts/missing_data_analysis.py:77 | dropna keeps exactly the present numbers |
| MissingDataAnalysis.TopValue | scripts/missing_data_analysis.py:84-87 | the top value of value_counts occurs at least as often as every other value |
| MissingDataAnalysis.CheckConstant | scripts/missing_data_analysis.py:75-107 | the check raises exactly when the column has no present value; constant means exactly one distinct value; dominant means 2-4 distinct values with the top value in more than 95% of rows |
| MissingDataAnalysis.DominantValueUnique | scripts/missing_data_analysis.py:83-87 | only one value can fill more than 95% of the rows, so the dominant value does not depend on the order of ties |
| MissingDataAnalysis.RuleFor | scripts/missing_data_analysis.py:176-209 | the rule is the temperature range exactly when the lowercased name contains 'temp'; else no negative power exactly for 'leistung'/'power'; else the flow rule or none |
| MissingDataAnalysis.TemperaturMentionsTemp | scripts/missing_data_analysis.py:180 | 'temperatur' contains 'temp', so the first keyword of the temperature test never decides anything |
| MissingDataAnalysis.ImplausibleOf | scripts/missing_data_analysis.py:174-209 | an entry exists only for a column whose rule some reading breaks: temperatures outside [-50, 100], negative power, negative flow; it counts all offending rows and lists at most ten; no entry means no reading breaks the rule |
| MissingDataAnalysis.SortTimes | scripts/missing_data_analysis.py:146 | sort_values gives a permutation of the present timestamps in ascending order |
| MissingDataAnalysis.Mode | scripts/missing_data_analysis.py:152 | mode()[0] is a most frequent difference, the smallest among ties |
| MissingDataAnalysis.Diffs | scripts/missing_data_analysis.py:149 | diff() of the sorted stamps: entry i-1 is ts[i] - ts[i-1] |
| MissingDataAnalysis.NormalIntervalNonNegative | scripts/missing_data_analysis.py:146-152 | on ascending stamps the normal interval is non-negative |
| MissingDataAnalysis.GapAt | scripts/missing_data_analysis.py:160-167 | a gap record joins rows i-1 and i, and its duration is end time minus start time |
| MissingDataAnalysis.GapsAgainst | scripts/missing_data_analysis.py:155-172 | at most ten gaps, the first of all gaps in order; none for fewer than two stamps or a zero interval (a division by zero lands in the handler) |
| MissingDataAnalysis.AllGapsSound | scripts/missing_data_analysis.py:158-167 | each gap record joins neighbours more than twice the normal interval apart, with missing_intervals = diff / normal of at least 2, in ascending row order |
| MissingDataAnalysis.AllGapsComplete | scripts/missing_data_analysis.py:158-167 | every neighbour difference above twice the normal interval has its record |
| MissingDataAnalysis.ScanGaps | scripts/missing_data_analysis.py:155-172 | the loop over the differences yields GapsAgainst |
| MissingDataAnalysis.DetectTimeGaps | scripts/missing_data_analysis.py:141-172 | detect_time_gaps on the converted column gives the gaps of the sorted present stamps against their mode (5 minutes without one) |
| MissingDataAnalysis.TimeColumn | scripts/missing_data_analysis.py:93-94 | 'Datum + Uhrzeit' when present; else, when some column lowercases to 'timestamp', the first column whose lowercased name contains 'timestamp'; none exactly when neither exists |
| MissingDataAnalysis.FirstContaining | scripts/missing_data_analysis.py:94 | the first column whose lowercased name contains the key; none exactly when no column does |
| MissingDataAnalysis.EntriesExact | scripts/missing_data_analysis.py:56-102 | a column has a dictionary entry exactly when its check says something, and the entry carries what it says |
| MissingDataAnalysis.EntriesUpToExact | scripts/missing_data_analysis.py:45-62 | among the first n columns, a column has an entry exactly when its check says something |
| MissingDataAnalysis.ConstantCheckFailsIff | scripts/missing_data_analysis.py:75-107 | the file's analysis fails exactly when some numeric column's constant check raises |
| MissingDataAnalysis.CollectMissing | scripts/missing_data_analysis.py:45-62 | the column loop records exactly the entries of the columns with missing cells, in column order |
| MissingDataAnalysis.MissingStep | scripts/missing_data_analysis.py:46-62 | one pass adds column j's entry when it has missing cells |
| MissingDataAnalysis.CheckColumnConstant | scripts/missing_data_analysis.py:76-90 | one column's constant check: whether it raises and the entry it records |
| MissingDataAnalysis.CollectConstants | scripts/missing_data_analysis.py:75-107 | none exactly when some column's check raises; otherwise exactly the constant and dominant entries in column order |
| MissingDataAnalysis.ScanConstants | scripts/missing_data_analysis.py:75-90 | the loop stops at the first column whose check raises (no earlier one does), having recorded the entries of the columns before it |
| MissingDataAnalysis.ConstantsPass | scripts/missing_data_analysis.py:75-90 | a loop that ends without a failure has recorded every entry and no column fails |
| MissingDataAnalysis.ConstantStep | scripts/missing_data_analysis.py:76-90 | one pass reports whether column j's check raises and otherwise adds its entry |
| MissingDataAnalysis.CheckColumnPlausible | scripts/missing_data_analysis.py:98-102 | one column's implausible-value entry, the time column excepted |
| MissingDataAnalysis.CollectImplausible | scripts/missing_data_analysis.py:97-102 | the loop records exactly the columns with implausible readings, in column order |
| MissingDataAnalysis.ImplausibleStep | scripts/missing_data_analysis.py:99-102 | one pass adds column j's entry when it has implausible readings |
| MissingDataAnalysis.AnalyzeCsvFile | scripts/missing_data_analysis.py:24-107 | the error dictionary exactly when reading failed or a constant check raised; otherwise row and column totals, the missing entries, the duplicates, the constant entries, the gaps of the time column and the implausible entries |
| MissingDataAnalysis.MissingEntryIffMissingCell | scripts/missing_data_analysis.py:45-62 | a column has a missing-value entry exactly when one of its cells is missing |
| MissingDataAnalysis.Totals | scripts/missing_data_analysis.py:325-343 | files_analyzed counts every file, failed ones included |
| MissingDataAnalysis.IssuesOfExact | scripts/missing_data_analysis.py:349-356 | a critical issue is listed for a column exactly when its missing percentage exceeds 50 |
| MissingDataAnalysis.CriticalIssuesExact | scripts/missing_data_analysis.py:346-381 | the critical issues are exactly the columns of successfully analysed files with more than 50% missing |
| MissingDataAnalysis.Summarize | scripts/missing_data_analysis.py:346-362 | the nested loop over a site's files and their entries computes Totals: missing counts summed over non-error files, constants and gaps counted, issues collected |
| MissingDataAnalysis.GenerateSummary | scripts/missing_data_analysis.py:325-384 | the summary holds Totals for FIS_Inhauser and for Erentrudisstr |
| DetailedAnalysis.SettledStays | scripts/csv_detailed_analysis.py:36-44 | once the loop has crashed or reached max_rows, later records change nothing |
| DetailedAnalysis.ReadBounded | scripts/csv_detailed_analysis.py:35-44 | with a limit at most max_rows rows are accepted, and the dictionary never holds more entries than rows accepted |
| DetailedAnalysis.CrashIffEmptyRecord | scripts/csv_detailed_analysis.py:40 | without a limit the reading crashes (row[0] on an empty record) exactly when some record is empty |
| DetailedAnalysis.KeysAreAcceptedStamps | scripts/csv_detailed_analysis.py:40-43 | the dictionary's keys are exactly the parsed timestamps of records with a non-empty first field |
| DetailedAnalysis.LastRecordWins | scripts/csv_detailed_analysis.py:43 | a timestamp keeps the last record carrying it; earlier ones are overwritten |
| DetailedAnalysis.ReadKeysValid | scripts/csv_detailed_analysis.py:18-43 | with the strptime '%d.%m.%Y %H:%M' parser every key is a calendar date |
| DetailedAnalysis.ReadCsvWithTimestamps | scripts/csv_detailed_analysis.py:26-46 | an empty file raises (next on the reader); otherwise the first record is the header and the loop's dictionary is returned, None exactly when it crashed |
| DetailedAnalysis.ReadStep | scripts/csv_detailed_analysis.py:36-44 | one more record is one more loop step |
| DetailedAnalysis.ReadRecord | scripts/csv_detailed_analysis.py:37-44 | the loop body for a record with a first field performs Step: break test, parse, store and count |
| DetailedAnalysis.Normalized | scripts/csv_detailed_analysis.py:54-56 | the text handed to float has no ',' and no '"', and text that had neither comes back unchanged |
| DetailedAnalysis.NormalizedCount | scripts/csv_detailed_analysis.py:54-56 | after normalising, the dots are the old dots plus the old commas, there is no ',' or '"', and every other character occurs as often as before |
| DetailedAnalysis.NormalizedAppend | scripts/csv_detailed_analysis.py:54-56 | normalising works piece by piece, so the characters that stay keep their order |
| DetailedAnalysis.ConvertGermanNumber | scripts/csv_detailed_analysis.py:48-59 | empty text gives None; otherwise float of the text with ',' made '.' and '"' removed, None when float raises |
| DetailedAnalysis.GroupedNumberRejected | scripts/csv_detailed_analysis.py:48-59 | a number with '.' thousands separators and a decimal comma ('1.234,56') converts to None |
| DetailedAnalysis.CompareValues | scripts/csv_detailed_analysis.py:61-75 | a result exactly when both sides convert; the difference is |a - b|, non-negative and zero exactly when the numbers are equal; the relative difference is difference * 100 / |a| when a is not zero, 100 when only a is zero and 0 when both are |
| DetailedAnalysis.DifferenceSymmetric | scripts/csv_detailed_analysis.py:69 | the absolute difference does not depend on the order of the values |
| DetailedAnalysis.ClassifyDifferences | scripts/csv_detailed_analysis.py:226-236 | no verdict for no differences; otherwise the verdict of the largest difference |
| DetailedAnalysis.VerdictMeaning | scripts/csv_detailed_analysis.py:228-236 | identical exactly when every difference is zero; similar exactly when some difference is positive and all are below 0.01 |
| DetailedAnalysis.Differences | scripts/csv_detailed_analysis.py:204-217 | at most one difference per sampled timestamp, all non-negative |
| DetailedAnalysis.EarliestExists | scripts/csv_detailed_analysis.py:168-204 | every non-empty set of timestamps has an earliest one |
| DetailedAnalysis.AscendingUnique | scripts/csv_detailed_analysis.py:204 | two ascending enumerations of the same timestamps are equal, so sorted() is determined |
| DetailedAnalysis.SortedOf | scripts/csv_detailed_analysis.py:168-204 | sorted(common_times) is ascending and holds exactly the set's timestamps |
| DetailedAnalysis.SortedTimes | scripts/csv_detailed_analysis.py:204 | the selection loop produces SortedOf |
| DetailedAnalysis.Sample | scripts/csv_detailed_analysis.py:204 | the first 100 sampled timestamps are in both dictionaries |
| DetailedAnalysis.VerdictsStep | scripts/csv_detailed_analysis.py:205-236 | one more column adds its verdict when it has a numeric pair, and nothing otherwise |
| DetailedAnalysis.ParameterAgreement | scripts/csv_detailed_analysis.py:200-236 | skipped without common timestamps or columns; otherwise None exactly when a short record makes the script crash, and else the verdict of every common parameter with a numeric pair |
| DetailedAnalysis.WordLength | scripts/csv_detailed_analysis.py:259 | the leading run of word characters is maximal |
| DetailedAnalysis.WordTokens | scripts/csv_detailed_analysis.py:259-260 | every token is a non-empty run of word characters |
| DetailedAnalysis.CandidateSymmetric | scripts/csv_detailed_analysis.py:259-264 | being a candidate pair (three shared keywords, different names) is symmetric |
| DetailedAnalysis.MappingCheck | scripts/csv_detailed_analysis.py:264-276 | a pair is a mapping exactly when it is a candidate and both readings at the first common timestamp convert to the same number; the check fails exactly when a candidate's record is too short for its column index |
| DetailedAnalysis.Checks | scripts/csv_detailed_analysis.py:257-276 | one check per name of the second header, in header order |
| DetailedAnalysis.PerColumn | scripts/csv_detailed_analysis.py:256-276 | one inner-loop result per name of the first header, in header order |
| DetailedAnalysis.MappingsSound | scripts/csv_detailed_analysis.py:255-276 | every reported pair has different names, three shared keywords, and equal converted readings at the first common timestamp, and its names come from the two headers |
| DetailedAnalysis.MappingsComplete | scripts/csv_detailed_analysis.py:255-276 | when the loops finish, every candidate pair whose readings at the first common timestamp convert to the same number has been reported |
| DetailedAnalysis.CollectSound | scripts/csv_detailed_analysis.py:257-276 | a pair of the inner loop pairs col1 with a name whose check hit |
| DetailedAnalysis.FirstCommonRows | scripts/csv_detailed_analysis.py:266-272 | the earliest common timestamp and its two records |
| DetailedAnalysis.FindMappingsFor | scripts/csv_detailed_analysis.py:257-276 | the inner loop computes MappingsFor |
| DetailedAnalysis.ScanMappingsFor | scripts/csv_detailed_analysis.py:257-276 | the inner loop stops at the first failing check, and then the whole search fails |
| DetailedAnalysis.MappingStep | scripts/csv_detailed_analysis.py:258-276 | one inner pass appends the pair on a hit and reports a failure |
| DetailedAnalysis.FindMappings | scripts/csv_detailed_analysis.py:255-276 | the nested loops compute Mappings over both headers |
| DetailedAnalysis.ScanMappings | scripts/csv_detailed_analysis.py:256-276 | the outer loop stops at the first failing inner loop, and then the whole search fails |
| DetailedAnalysis.ColumnStep | scripts/csv_detailed_analysis.py:256-276 | one outer pass appends the inner loop's pairs or reports its failure |
| DetailedAnalysis.CollectNoneStays | scripts/csv_detailed_analysis.py:257-276 | once a check has failed the inner loop's result stays None |
| DetailedAnalysis.JoinNoneStays | scripts/csv_detailed_analysis.py:256-276 | once an inner loop has failed the outer loop's result stays None |
| SimpleComparison.CategorizeColumnIsFirstMatch | scripts/csv_comparison_simple.py:42-59 | a column gets rule i's category exactly when its lowercased name contains one of rule i's keywords and none of an earlier rule's |
| SimpleComparison.CategorizeColumnOther | scripts/csv_comparison_simple.py:58-59 | 'Sonstige' exactly for names matching no rule |
| SimpleComparison.SupplyLineIsTemperature | scripts/csv_comparison_simple.py:46-48 | a name containing 'vorlauf' is a temperature even when it also mentions 'strom' |
| SimpleComparison.ExactMatches | scripts/csv_comparison_simple.py:61-67 | a name is matched exactly when it is in both lists, and each name of cols2 is matched as often as cols1 holds it |
| SimpleComparison.ExactMatchesAppend | scripts/csv_comparison_simple.py:64-66 | the matches of a concatenation are the matches of its parts, in order |
| SimpleComparison.ExactMatchesInOrder | scripts/csv_comparison_simple.py:64-66 | the matches keep cols1's order: each name of cols1 found in cols2 contributes itself at its place |
| SimpleComparison.FindExactMatches | scripts/csv_comparison_simple.py:61-67 | the append loop computes ExactMatches |
| SimpleComparison.RemoveGroups | scripts/csv_comparison_simple.py:76 | removing '(...)' groups shortens the name, adds no character and leaves no '(' before a ')' |
| SimpleComparison.RemoveGroupsKeepsPlain | scripts/csv_comparison_simple.py:76 | a name without a complete group is left as it is |
| SimpleComparison.RemoveGroupsIdempotent | scripts/csv_comparison_simple.py:76 | removing groups twice removes nothing more |
| SimpleComparison.SeparatorsToSpaces | scripts/csv_comparison_simple.py:77 | each '/', '-' or '_' becomes a space and every other character stays |
| SimpleComparison.LongWords | scripts/csv_comparison_simple.py:78-79 | the keywords are exactly the lowercased words longer than two characters |
| SimpleComparison.KeywordShape | scripts/csv_comparison_simple.py:74-79 | every keyword is longer than two characters and holds no whitespace and no separator |
| SimpleComparison.SimilarFor | scripts/csv_comparison_simple.py:83-87 | for one column, exactly the pairs with a cols2 name sharing at least two keywords, with the shared count |
| SimpleComparison.PairIfSimilar | scripts/csv_comparison_simple.py:85-87 | the pair is emitted exactly when the two names share at least two keywords |
| SimpleComparison.Similar | scripts/csv_comparison_simple.py:69-89 | find_similar_columns yields exactly the pairs sharing at least two keywords, with the number shared |
| SimpleComparison.SimilarSymmetric | scripts/csv_comparison_simple.py:69-89 | swapping the header lists finds the same pairs, swapped |
| SimpleComparison.FindSimilarFor | scripts/csv_comparison_simple.py:83-87 | the inner loop computes SimilarFor |
| SimpleComparison.FindSimilarColumns | scripts/csv_comparison_simple.py:69-89 | the nested loops compute Similar |
| SimpleComparison.LineCount | scripts/csv_comparison_simple.py:40 | an empty file yields no lines |
| SimpleComparison.CountRowsOfFile | scripts/csv_comparison_simple.py:37-40 | a header and n newline-terminated rows count n rows |
| SimpleComparison.LinesOfTerminated | scripts/csv_comparison_simple.py:40 | n newline-terminated lines yield n lines |
| SimpleComparison.OnlyIn | scripts/csv_comparison_simple.py:226-228 | exactly the columns of the first file that neither other file has |
| SimpleComparison.OnlyInDisjoint | scripts/csv_comparison_simple.py:226-228 | the three 'only in file i' sets are pairwise disjoint and disjoint from the columns common to all three |
| CsvComparison.LoadGermanFormat | scripts/csv_comparison.py:22-52 | None exactly when the pandas read raises; otherwise every object column except 'Datum + Uhrzeit' has ',' made '.', '"' removed and is coerced to numbers, every other column kept |
| CsvComparison.ConvertedText | scripts/csv_comparison.py:42-45 | a text cell of a converted column becomes the number of its normalised text, or missing |
| CsvComparison.FindOverlap | scripts/csv_comparison.py:139-144 | an overlap exactly when the two ranges meet; it is a non-empty range inside both |
| CsvComparison.OverlapIsIntersection | scripts/csv_comparison.py:139-144 | the overlap holds exactly the instants lying in both ranges |
| CsvComparison.OverlapSymmetric | scripts/csv_comparison.py:139-144 | the overlap does not depend on the order of the ranges |
| CsvComparison.Score | scripts/csv_comparison.py:243-246 | 1.0 exactly for names equal ignoring case; 0.8 exactly when they differ and one lowercased name contains the other; no pair otherwise |
| CsvComparison.ScoredFor | scripts/csv_comparison.py:241-246 | for one column, exactly the names of the second list with a score, paired with that score |
| CsvComparison.Scored | scripts/csv_comparison.py:237-247 | find_similar_columns yields exactly the scored pairs |
| CsvComparison.ScoredSymmetric | scripts/csv_comparison.py:237-247 | swapping the lists finds the same pairs, swapped |
| CsvComparison.ScoresAreFixed | scripts/csv_comparison.py:243-246 | every reported score is 1.0 or 0.8; the threshold parameter plays no part |
| CsvComparison.FindSimilarFor | scripts/csv_comparison.py:241-246 | the inner loop computes ScoredFor |
| CsvComparison.FindSimilarColumns | scripts/csv_comparison.py:237-247 | the nested loops compute Scored |
| CsvComparison.CategoryOf | scripts/csv_comparison.py:272-285 | every column gets one of the six categories |
| CsvComparison.CategoryOfIsFirstMatch | scripts/csv_comparison.py:272-285 | a column goes to rule i's category exactly when rule i is the first to match its lowercased name |
| CsvComparison.CategorizeParameters | scripts/csv_comparison.py:262-287 | all six keys are present and each holds the columns of its category, in input order |
| CsvComparison.CategoriesPartition | scripts/csv_comparison.py:262-287 | every column is in exactly one category list and the list sizes add up to the column count |
| CsvComparison.UniqueColumnsDisjoint | scripts/csv_comparison.py:94-114 | the unique-to-file sets are pairwise disjoint and none meets a pairwise common set it is not part of |
| ColumnToggle.CategoryOf | src/column_toggle_component.py:31-86 | every column gets one of the eleven groups |
| ColumnToggle.CategoriesRanked | src/column_toggle_component.py:17-29 | the groups of the dictionary are distinct and listed in a fixed order |
| ColumnToggle.CategoryOfIsFirstMatch | src/column_toggle_component.py:31-86 | a column gets group i exactly when group i is the first whose keyword its lowercased name contains |
| ColumnToggle.DateKeywordsWin | src/column_toggle_component.py:36-40 | a name with a date or time keyword is a date column whatever else it mentions ('Tagesenergie') |
| ColumnToggle.Groups | src/column_toggle_component.py:17-88 | before empty groups are removed, every group holds its columns in input order |
| ColumnToggle.CategorizeColumns | src/column_toggle_component.py:13-92 | the loop and the filter compute Categorized: the non-empty groups in dictionary order |
| ColumnToggle.EachColumnOnce | src/column_toggle_component.py:31-90 | each column lands in exactly one listed group, the one it is classified as, and no listed group is empty |
| ColumnToggle.SizesAddUp | src/column_toggle_component.py:31-90 | the group sizes add up to the number of columns |
| ColumnToggle.KeepsFixedOrder | src/column_toggle_component.py:17-90 | the remaining groups keep the dictionary's order |
| ColumnToggle.NoneMeansAllChecked | src/column_toggle_component.py:111-125 | with no visible list every group checkbox starts checked |
| ColumnToggle.ExpandAmpersand | src/column_toggle_component.py:128 | replace('&', 'and') leaves no '&', adds only 'a', 'n', 'd', and changes nothing without '&' |
| ColumnToggle.CategoryId | src/column_toggle_component.py:128 | the checkbox id has no space and no '&', and a name without either is its own id |
| ColumnToggle.ExpandAmpersandAppend | src/column_toggle_component.py:128 | the expansion splits over a concatenation |
| ColumnToggle.CategoryIdByChar | src/column_toggle_component.py:128 | the id replaces each character by its own id, in order |
| ErentrudisStructure.FirstParse | scripts/analyze_erentrudisstr_data.py:22-45 | the first format that accepts the text, with its result; none exactly when every format fails |
| ErentrudisStructure.FlexibleTakesFirstSuccess | scripts/analyze_erentrudisstr_data.py:35-39 | the result is the first accepting format's |
| ErentrudisStructure.FlexibleFallsBack | scripts/analyze_erentrudisstr_data.py:40-45 | inference is consulted only when every listed format fails |
| ErentrudisStructure.DatetimeColumns | scripts/analyze_erentrudisstr_data.py:88-100 | a column is a datetime column exactly when its name mentions date/time/zeit or it is a non-empty object column whose first value holds '-', '/', '.' or ':' |
| ErentrudisStructure.DetectDatetimeColumns | scripts/analyze_erentrudisstr_data.py:88-100 | the loop computes DatetimeColumns |
| ErentrudisStructure.Parameters | scripts/analyze_erentrudisstr_data.py:131-132 | the parameters are exactly the columns that are not datetime columns |
| ErentrudisStructure.DateLikeColumnIsNoParameter | scripts/analyze_erentrudisstr_data.py:92-132 | an object column whose first value looks like a date is never a parameter, since the parse never raises |
| ErentrudisStructure.PercentBounds | scripts/analyze_erentrudisstr_data.py:318-319 | with a common parameter the overlap percentage lies in (0, 100] |
| ErentrudisStructure.ParameterOverlaps | scripts/analyze_erentrudisstr_data.py:307-345 | the nested loops over pairs i < j compute Overlaps and Subsets |
| ErentrudisStructure.ParameterOverlapsWith | scripts/analyze_erentrudisstr_data.py:309-345 | the inner loop computes dataset i's row of pairs |
| ErentrudisStructure.OverlapPercentInRange | scripts/analyze_erentrudisstr_data.py:316-331 | every reported overlap has common parameters and a percentage in (0, 100] |
| ErentrudisStructure.SubsetEntryMeaning | scripts/analyze_erentrudisstr_data.py:333-345 | a subset entry names a set contained in the other; equal sets report the earlier dataset as subset; no entry exactly when neither contains the other |
| ErentrudisStructure.IdenticalIffEqual | scripts/analyze_erentrudisstr_data.py:386-400 | 'identical structure' exactly when the parameter sets are equal |
| ErentrudisStructure.ColumnOverlap | scripts/analyze_erentrudisstr_data.py:366-368 | an overlap exactly when start1 <= end2 and start2 <= end1 |
| ErentrudisStructure.ColumnOverlapIsFindOverlap | scripts/analyze_erentrudisstr_data.py:366-368 | for proper ranges the test and bounds agree with the find_overlap of csv_comparison.py |
| ErentrudisStructure.ColumnPairs | scripts/analyze_erentrudisstr_data.py:357-378 | every entry for two files names those files |
| ErentrudisStructure.TimeAt | scripts/analyze_erentrudisstr_data.py:353-354 | pairs with file1 >= file2 are skipped |
| ErentrudisStructure.TimeOverlaps | scripts/analyze_erentrudisstr_data.py:351-380 | the nested loops over all ordered file pairs compute GridUpTo |
| ErentrudisStructure.TimeOverlapsWith | scripts/analyze_erentrudisstr_data.py:352-380 | the inner loop computes file i's row |
| ErentrudisStructure.ComparedOnce | scripts/analyze_erentrudisstr_data.py:351-354 | each pair of files is compared in one direction only |
| AllFiles.ParseColumn | scripts/compare_all_files.py:35 | to_datetime with '%d.%m.%Y %H:%M' raises exactly when some present cell does not parse (by the same field patterns as strptime, Unicode decimal digits included); otherwise one stamp per row, NaT for a missing cell |
| AllFiles.TimeSummary | scripts/compare_all_files.py:33-44 | the time lines are skipped exactly when the column is absent, parsing raises or every stamp is NaT; otherwise first and last are the minimum and maximum parsed stamp, the duration is whole days plus one (at least 1) and the interval is the mode of the differences |
| AllFiles.SummaryCoversEveryStamp | scripts/compare_all_files.py:33-37 | a column of well-formed timestamps gets a range that holds every one of them |
| AllFiles.RenderedStampParses | scripts/compare_all_files.py:35 | a timestamp rendered in the export's own format parses back to the same instant |
| AllFiles.CategoryOf | scripts/compare_all_files.py:61-79 | every column gets one of the nine categories |
| AllFiles.CategoriesRanked | scripts/compare_all_files.py:49-59 | the categories are distinct and listed in a fixed order |
| AllFiles.CategoryOfIsFirstMatch | scripts/compare_all_files.py:61-79 | a column gets rule i's category exactly when rule i is the first whose case-sensitive keyword its name contains |
| AllFiles.OtherIffNoKeyword | scripts/compare_all_files.py:78-79 | 'Andere' exactly when the name contains none of the keywords |
| AllFiles.BufferFirst | scripts/compare_all_files.py:62-63 | every name containing 'Puffer' is a 'Puffer' column whatever else it holds |
| AllFiles.Groups | scripts/compare_all_files.py:49-79 | every category holds its columns in input order |
| AllFiles.AnalyzeCategories | scripts/compare_all_files.py:49-83 | the grouping loop and the non-empty filter compute Categorized |
| AllFiles.EachColumnOnce | scripts/compare_all_files.py:61-83 | each column is listed exactly once, under its category |
| AllFiles.SizesAddUp | scripts/compare_all_files.py:81-83 | the printed category counts add up to the column count |
| AllFiles.KeepsFixedOrder | scripts/compare_all_files.py:81-83 | the printed categories keep the dictionary's order |
| AllFiles.BreakdownOf | scripts/compare_all_files.py:125-128 | the Puffer, Drehzahl and EV lists hold exactly the unique columns containing their keyword; 'other' exactly those containing none |
| AllFiles.BreakdownCovers | scripts/compare_all_files.py:125-128 | the four lists together hold every unique column and 'other' shares none with the keyword lists |
| AllFiles.KeywordListsOverlap | scripts/compare_all_files.py:125-127 | the keyword lists are not exclusive: 'Puffer Drehzahl' is in both the Puffer and the Drehzahl list |
| Regions.VennOf | scripts/compare_all_files.py:98-104 | each region lies inside the sets it names and outside the others |
| Regions.InRegionIff | scripts/compare_fis_datasets.py:53-60 | a name lies in a region exactly when its membership pattern is that region's |
| Regions.RegionsPartition | scripts/compare_all_files.py:98-104 | the seven regions are pairwise disjoint and make up the union of the three sets |
| Regions.SetIsItsRegions | scripts/compare_fis_datasets.py:53-60 | each set is the union of the four regions inside it |
| Regions.RegionsSwap | scripts/compare_all_files.py:98-104 | swapping the first two sets swaps their regions and leaves the shared ones alone |
| Regions.SplitOf | scripts/compare_relevant_files.py:95-97 | common lies in both sets, each unique part in its own set and outside the other |
| Regions.SplitPartition | scripts/compare_relevant_files.py:95-97 | common and the two unique parts are pairwise disjoint, make up the union, and each set is common plus its own part |
| Regions.CommonBounded | scripts/compare_relevant_files.py:95-168 | the common part is no larger than either set |
| FisDatasets.OnlyIn | scripts/compare_fis_datasets.py:58-60 | exactly the names of one file in neither other file |
| FisDatasets.SortedUnique | scripts/compare_fis_datasets.py:58-83 | sorted(only_2024) is ascending and holds exactly the first file's own Venn region |
| FisDatasets.WithKey | scripts/compare_fis_datasets.py:86-110 | the filter keeps exactly the names containing one of the keywords |
| FisDatasets.WithKeyKeepsSorted | scripts/compare_fis_datasets.py:83-88 | filtering a sorted list leaves it sorted |
| FisDatasets.HeatPumpShown | scripts/compare_fis_datasets.py:108-114 | at most five names are shown, each unique to Export_2025-01 and containing 'WP' or 'Wärmepumpe' |
| FisDatasets.HouseOf | scripts/compare_fis_datasets.py:96-98 | a house number holds no whitespace and has no '/' at either end; FisDatasets.HouseOfFirstWord states it is the first word after 'Haus', stripped of '/' |
| FisDatasets.HouseOfFirstWord | scripts/compare_fis_datasets.py:94-98 | no house without a 'Haus'; a raise exactly when the text between the first 'Haus' and the next is blank; otherwise the first whitespace-free run of that text, with '/' stripped |
| FisDatasets.HausSegment | scripts/compare_fis_datasets.py:96-97 | the text between the first 'Haus' and the next one, or the end, lies right after the first 'Haus' |
| FisDatasets.HausAlwaysSplits | scripts/compare_fis_datasets.py:94-97 | a name holding 'Haus' always splits in two or more, so the length test never skips it |
| FisDatasets.RaisesIffBlank | scripts/compare_fis_datasets.py:96-98 | the extraction raises exactly when the text between the first 'Haus' and the next is blank |
| FisDatasets.NothingAfterHausRaises | scripts/compare_fis_datasets.py:96-98 | a name with only whitespace after its first 'Haus' makes the script raise IndexError |
| FisDatasets.NoBreakSpaceAfterHausRaises | scripts/compare_fis_datasets.py:96-98 | the name 'Wärmemenge Haus' followed by a NO-BREAK SPACE makes split()[0] raise IndexError |
| FisDatasets.HousesOf | scripts/compare_fis_datasets.py:92-99 | None exactly when some 'Haus' name raises; otherwise the set holds exactly the extracted house numbers |
| FisDatasets.CollectHouses | scripts/compare_fis_datasets.py:92-99 | the house loop computes HousesOf |
| FisDatasets.HouseKey | scripts/compare_fis_datasets.py:100 | where int() does not raise, a label of digits keys by its decimal value (any script of decimal digits) and any other label keys 0 |
| FisDatasets.HousesInOrder | scripts/compare_fis_datasets.py:100 | the sort raises (None) exactly when some label passes isdigit() but holds a non-decimal digit such as '²'; otherwise the houses are a permutation of the set, sorted by the int key |
| FisDatasets.HousesNumericOrder | scripts/compare_fis_datasets.py:100 | when the sort does not raise, numbered houses come out in numeric order and a non-numeric label sorts like house 0 |
| FisDatasets.ArabicIndicHouseSortsByValue | scripts/compare_fis_datasets.py:100 | an Arabic-Indic three keys 3, so the houses {٣, 2} print as 2, ٣ |
| FisDatasets.SuperscriptHouseRaises | scripts/compare_fis_datasets.py:100 | a superscript two passes isdigit() but int() rejects it, so the sort raises |
| FisDatasets.RowsInPeriod | scripts/compare_fis_datasets.py:146-147 | the rows in the period are no more than the rows |
| FisDatasets.BoundsInclusive | scripts/compare_fis_datasets.py:146 | a row exactly at the start or the end of the period counts |
| FisDatasets.OwnPeriodHoldsAll | scripts/compare_fis_datasets.py:140-147 | every present row of a column lies inside that column's own period |
| FisDatasets.V1InOwnPeriod | scripts/compare_fis_datasets.py:140-147 | the V1 export has all its timestamped rows in its own period |
| FisDatasets.NoPeriodNoRows | scripts/compare_fis_datasets.py:140-147 | a NaT period selects no row |
| FisDatasets.ParamsToCheck | scripts/compare_fis_datasets.py:157-181 | at most five parameters, all common to the three files, never 'Datum + Uhrzeit', and five whenever there are five |
| Durchfluss.ExpectedRows | scripts/compare_durchfluss.py:50 | span/300 + 1 is at least one row |
| Durchfluss.Completeness | scripts/compare_durchfluss.py:51 | completeness is non-negative and at most 100 exactly when the rows do not exceed the expected rows |
| Durchfluss.GapFreeIsComplete | scripts/compare_durchfluss.py:50-51 | a gap-free five-minute series is exactly 100% complete |
| Durchfluss.Coverage | scripts/compare_durchfluss.py:41-54 | a coverage exactly when some timestamp is present; then start and end are the minimum and maximum stamp, days is whole days plus one (at least 1) and the completeness is rows over expected five-minute rows in percent |
| Durchfluss.ZeroCounts | scripts/compare_durchfluss.py:61-62 | the non-zero and zero counts add up to the row count |
| Durchfluss.MissingCountsAsNonZero | scripts/compare_durchfluss.py:61-62 | missing cells count as non-zero |
| Durchfluss.RelationOf | scripts/compare_durchfluss.py:106-117 | IDENTICAL exactly for equal sets, SUBSET exactly for a proper subset, SUPERSET exactly for a proper superset, partial otherwise |
| Durchfluss.SubsetSharesAll | scripts/compare_durchfluss.py:110-112 | for a subset the common count printed is the whole flow file |
| Durchfluss.RelationFlips | scripts/compare_durchfluss.py:106-117 | swapping the files swaps subset and superset and keeps identical and partial |
| Durchfluss.AlsoAppearIn | scripts/compare_durchfluss.py:132-142 | printed exactly when the flow file has at most five columns, listing exactly the files holding every one of them |
| Durchfluss.AppearsIffContains | scripts/compare_durchfluss.py:106-142 | a file is listed exactly when its label is IDENTICAL or SUBSET |
| Durchfluss.RowWarning | scripts/compare_durchfluss.py:119-128 | the warning appears exactly when the structures are identical and the row counts differ, and carries the signed difference |
| Durchfluss.CompareColumns | scripts/compare_durchfluss.py:174-183 | one verdict per common column, and all_match stays true exactly when every column's values are identical |
| Durchfluss.CheckDataConsistency | scripts/compare_durchfluss.py:146-183 | differing row counts stop the check; equal counts with unequal timestamps stop it; otherwise one verdict per common column and the conclusion exactly when all match |
| RelevantFiles.ReadProperly | scripts/compare_relevant_files.py:19-36 | ';' in UTF-8 first, then cp1252, then ','; the first read that succeeds wins, and the function raises exactly when all three do |
| RelevantFiles.OverlapPercentage | scripts/compare_relevant_files.py:168-230 | raises exactly when both sets are empty; otherwise lies in [0, 100] and is 100 exactly for equal sets |
| RelevantFiles.OverlapSymmetric | scripts/compare_relevant_files.py:168 | the overlap does not depend on which file comes first |
| RelevantFiles.RowDifference | scripts/compare_relevant_files.py:124 | the absolute row difference is zero exactly for equal counts and is the gap between them |
| RelevantFiles.CommonNames | scripts/compare_relevant_files.py:95 | exactly the names both tables have |
| RelevantFiles.FirstCommon | scripts/compare_relevant_files.py:131 | the alphabetically first common column |
| RelevantFiles.DiffCount | scripts/compare_relevant_files.py:135-141 | at most one per row, and zero exactly when every row renders the same text |
| RelevantFiles.FirstColumnDifferences | scripts/compare_relevant_files.py:127-143 | zero exactly when the first common column renders identically in every row |
| RelevantFiles.NumericCompared | scripts/compare_relevant_files.py:147-151 | at most three common columns, each numeric in both frames, and three whenever there are three |
| RelevantFiles.NumericBoth | scripts/compare_relevant_files.py:147 | exactly the common columns numeric in both frames |
| RelevantFixed.ReadCorrect | scripts/compare_relevant_fixed.py:17-25 | UTF-8 first, then cp1252; the first read that succeeds wins, and the function raises exactly when both do |
| RelevantFixed.TimeLineOf | scripts/compare_relevant_fixed.py:40-47 | nothing without the column; nothing exactly when parsing raises; a range exactly when some stamp parses, with first and last the minimum and maximum parsed stamp and the duration in whole days (no + 1); otherwise NaT |
| RelevantFixed.DurationOneDayShort | scripts/compare_relevant_fixed.py:44-45 | the printed duration is one day shorter than the '+ 1' durations of the other comparisons |
| RelevantFixed.NullCount | scripts/compare_relevant_fixed.py:53 | a column's null count is at most the rows and zero exactly when no cell is missing |
| RelevantFixed.NullCounts | scripts/compare_relevant_fixed.py:52-53 | one null count per column, in column order |
| RelevantFixed.Flagged | scripts/compare_relevant_fixed.py:52-55 | every entry has a positive count and every name with a positive count is listed with it |
| RelevantFixed.FlaggedEmpty | scripts/compare_relevant_fixed.py:52-57 | nothing is flagged exactly when every count is zero |
| RelevantFixed.NullColumns | scripts/compare_relevant_fixed.py:51-55 | null_cols lists exactly the columns with a null, each with its count |
| RelevantFixed.NullColumnsStep | scripts/compare_relevant_fixed.py:52-55 | one more column is appended, with its count, exactly when it holds a null |
| RelevantFixed.NullColumnsFrom | scripts/compare_relevant_fixed.py:52-55 | every entry of null_cols is some column with its own null count |
| RelevantFixed.ListNullColumns | scripts/compare_relevant_fixed.py:51-55 | the loop computes NullColumns |
| RelevantFixed.NoMissingValues | scripts/compare_relevant_fixed.py:57-62 | 'No missing values detected' exactly when no column holds a missing cell |
| RelevantFixed.Minus | scripts/compare_relevant_fixed.py:76-77 | exactly the names of the first list missing from the second |
| RelevantFixed.SplitColumns | scripts/compare_relevant_fixed.py:72-77 | common, only_file1 and only_file2 are strictly sorted and hold exactly the shared and the one-sided names |
| RelevantFixed.SplitIsSetSplit | scripts/compare_relevant_fixed.py:72-77 | the three lists hold exactly the parts of the set split |
| RelevantFixed.SplitPartitions | scripts/compare_relevant_fixed.py:72-77 | the three lists partition the union of the two column sets |
| RelevantFixed.Checked | scripts/compare_relevant_fixed.py:117-122 | numeric_common[:5]: at most five sorted common names other than the timestamp, each before every name left out |
| RelevantFixed.TakeOfSorted | scripts/compare_relevant_fixed.py:122 | the first n names of a sorted list are sorted and precede every name left out |
| RelevantFixed.Outcomes | scripts/compare_relevant_fixed.py:122-136 | one outcome per checked column, in order |
| RelevantFixed.TallyOf | scripts/compare_relevant_fixed.py:119-136 | the two counts never exceed the columns seen, and identical_count equals them exactly when every outcome is identical |
| RelevantFixed.TallyOfStep | scripts/compare_relevant_fixed.py:123-136 | one outcome raises its own count, or neither when the comparison raised |
| RelevantFixed.Tally | scripts/compare_relevant_fixed.py:119-136 | identical_count and different_count after the first k checked columns |
| RelevantFixed.CountIdentical | scripts/compare_relevant_fixed.py:119-136 | the counting loop computes Tally; a comparison that raises is counted in neither |
| RelevantFixed.AtMostFiveTallied | scripts/compare_relevant_fixed.py:117-122 | at most five columns are tallied |
| RelevantFixed.AllIdenticalIffSame | scripts/compare_relevant_fixed.py:138-140 | the conclusion is printed exactly when every checked column is identical in both files |
| RelevantFixed.VacuousConclusion | scripts/compare_relevant_fixed.py:117-140 | two files sharing only the timestamp column still get the conclusion |
| RelevantFixed.StampCheck | scripts/compare_relevant_fixed.py:103-114 | printed only when the timestamp column is common and both columns parse; identical exactly when the column is common and both columns parse to equal stamp sequences, which implies equal lengths and missing cells at the same rows |
| FinalComparison.ReadSafe | scripts/final_comparison.py:25-39 | ',' in UTF-8, re-read with ';' when the header landed in one column holding ','; any exception falls back to ';' in cp1252, and None only when that raises too |
| FinalComparison.DatetimeColumn | scripts/final_comparison.py:54-58 | the first column whose lowercased name contains 'datum' or 'zeit'; none exactly when no column does |
| FinalComparison.DateTexts | scripts/final_comparison.py:62 | the formatted parse raises exactly when the column holds a non-text value |
| FinalComparison.TimeOfColumn | scripts/final_comparison.py:60-67 | no time entries exactly when parsing raises; a span exactly when some stamp parses, with start and end the minimum and maximum parsed stamp and days = whole days + 1; otherwise a NaT range |
| FinalComparison.AnalyzeFile | scripts/final_comparison.py:41-69 | None exactly for an unread file; otherwise rows, columns and names, with the time entries of the first date column |
| FinalComparison.HeaderParams | scripts/final_comparison.py:87-123 | a file read into one column whose name holds ',' has that name split into at least two parameters |
| FinalComparison.KeyCount | scripts/final_comparison.py:95-98 | a keyword list is no longer than the parameter list |
| FinalComparison.OtherAsWrittenNegative | scripts/final_comparison.py:87-104 | as written, a one-column header 'Puffer Pumpe,Puffer Pumpe' splits into two parameters and prints 'Andere: -2' |
| FinalComparison.PufferPumpeHeader | scripts/final_comparison.py:88-90 | the header 'Puffer Pumpe,Puffer Pumpe' holds a ',' and splits into two 'Puffer Pumpe' parameters |
| FinalComparison.PufferPumpeTwice | scripts/final_comparison.py:95-104 | two 'Puffer Pumpe' parameters make the printed 'Andere' count -2 |
| FinalComparison.Hits | scripts/final_comparison.py:95-98 | a parameter hits at most four groups, and none exactly when it contains no keyword |
| FinalComparison.Others | scripts/final_comparison.py:104 | exactly the parameters in none of the four groups |
| FinalComparison.OtherShortfall | scripts/final_comparison.py:104 | the printed count falls short of the true one by exactly the double counting |
| FinalComparison.OtherAsWrittenExactIff | scripts/final_comparison.py:104 | the printed count is never above the true one and equals it exactly when no parameter is in two groups |
| FinalComparison.BreakdownOf | scripts/final_comparison.py:95-104 | the four keyword counts, and 'Andere' counting exactly the parameters in no group |
| FinalComparison.Names | scripts/final_comparison.py:140 | the file names in the order of the FILES dictionary |
| FinalComparison.Hierarchy | scripts/final_comparison.py:139-144 | all_info holds exactly one entry per readable file, with its analysis |
| FinalComparison.CreateHierarchy | scripts/final_comparison.py:132-144 | the loop computes Hierarchy, and no file name repeats |
| FinalComparison.Ranked | scripts/final_comparison.py:147 | a permutation of all_info with column counts non-increasing |
| FinalComparison.Members | scripts/final_comparison.py:171-199 | a group lists exactly the files whose column count passes its test |
| FinalComparison.GroupsExclusive | scripts/final_comparison.py:171-199 | no file is in two groups |
| FinalComparison.UngroupedIff | scripts/final_comparison.py:171-199 | a file is in no group exactly when its column count is none of 1, 4, 15, 23 and below 45 |
| FinalComparison.CoverageOf | scripts/final_comparison.py:227-234 | full year exactly above 300 days, multi-month above 100, monthly above 25, partial otherwise |
| FinalComparison.CoverageMonotone | scripts/final_comparison.py:227-234 | a longer span never gets a smaller coverage label |
| FinalComparison.YearIsFull | scripts/final_comparison.py:218-234 | a whole calendar year at five-minute steps counts as a full year |
| FinalComparison.Timed | scripts/final_comparison.py:214 | exactly the files with time entries |
| FinalComparison.CoverageListing | scripts/final_comparison.py:214-234 | None exactly when some file's stamps are all NaT; otherwise exactly the files with a range, by ascending start |
| KwNeukirchen.Pad2 | scripts/analyze_kw_neukirchen.py:29-33 | month:02d gives two digits whose decimal value is the month |
| KwNeukirchen.Pad2Injective | scripts/analyze_kw_neukirchen.py:29-33 | two months with the same padded text are the same month |
| KwNeukirchen.MonthlyName | scripts/analyze_kw_neukirchen.py:29-59 | ÜBERGABE_BEZUG_/ÜBERGABE_LIEFERUNG_ followed by year, '.', the padded month and '.XLSX' |
| KwNeukirchen.MonthlyNamesDistinct | scripts/analyze_kw_neukirchen.py:29-59 | within a year, the monthly names of two files coincide only for the same kind and month |
| KwNeukirchen.PathOf | scripts/analyze_kw_neukirchen.py:25-97 | a monthly workbook is opened inside its year folder; a generation workbook at the base path |
| KwNeukirchen.MonthlyPathsDistinct | scripts/analyze_kw_neukirchen.py:25-59 | no two monthly workbooks of one year share a path |
| KwNeukirchen.GenerationPathsDistinct | scripts/analyze_kw_neukirchen.py:96 | no two generation workbooks of one year share a path |
| KwNeukirchen.MonthKey | scripts/analyze_kw_neukirchen.py:33-63 | the summary key is the year, '-', and the padded month |
| KwNeukirchen.MonthKeysDistinct | scripts/analyze_kw_neukirchen.py:33-63 | within a year each month has its own summary key |
| KwNeukirchen.Percent | scripts/analyze_kw_neukirchen.py:38 | part over whole times 100 is non-negative, at most 100 exactly when part <= whole, 0 exactly for part 0 and 100 exactly for part == whole |
| KwNeukirchen.NullPercentage | scripts/analyze_kw_neukirchen.py:38-124 | 0 for a sheet without rows; NaN exactly when there are rows but no columns; otherwise between 0 and 100, and 0 exactly when no cell is null |
| KwNeukirchen.SheetInfoOf | scripts/analyze_kw_neukirchen.py:33-40 | the summary records the row count, the column names, the null count and the null percentage of the sheet |
| KwNeukirchen.StepLabel | scripts/analyze_kw_neukirchen.py:162-175 | '15-minute', 'Hourly', 'Daily', 'Weekly' exactly for steps of 15 min, 1 h, 1 day and 7 days; 'Monthly' exactly for 28-31 whole days; otherwise whole days when positive, else hours below one day |
| KwNeukirchen.DetectFrequency | scripts/analyze_kw_neukirchen.py:147-175 | 'Unknown' exactly when there is no step between neighbouring present stamps; otherwise the label of the modal step |
| KwNeukirchen.NeverIrregular | scripts/analyze_kw_neukirchen.py:157-159 | 'Irregular' is never returned, because a non-empty list of steps always has a mode |
| KwNeukirchen.QuarterHourSeries | scripts/analyze_kw_neukirchen.py:163-164 | stamps fifteen minutes apart are reported as '15-minute' |
| KwNeukirchen.TimeColumn | scripts/analyze_kw_neukirchen.py:105-118 | the first column with 'date', 'zeit' or 'time' in its lower-cased name whose conversion succeeds; every earlier such candidate failed to convert, and none means all failed |
| KwNeukirchen.TimeInfoOf | scripts/analyze_kw_neukirchen.py:104-118 | time_info is empty exactly when no column qualifies; otherwise it names that column, its start and end dates are the minimum and maximum converted stamp (NaT when none is present) and its frequency is that of the converted stamps |
| KwNeukirchen.NumericColumns | scripts/analyze_kw_neukirchen.py:129 | a name is listed exactly when some column of that name is numeric and was not converted to stamps |
| KwNeukirchen.Stamped | scripts/analyze_kw_neukirchen.py:108-109 | the converted columns are exactly the time column, when there is one |
| KwNeukirchen.NumericColumnsAt | scripts/analyze_kw_neukirchen.py:129 | with distinct names, a column is listed exactly when it is numeric and not converted |
| KwNeukirchen.ConvertedColumnNotNumeric | scripts/analyze_kw_neukirchen.py:108-129 | the converted time column never appears among numeric_columns; every other numeric column does |
| KwNeukirchen.MonthlyEntry | scripts/analyze_kw_neukirchen.py:44-52 | the mapping entry of a monthly sheet carries its kind, year and month and no plant |
| KwNeukirchen.GenerationEntry | scripts/analyze_kw_neukirchen.py:132-141 | the mapping entry of a generation sheet carries kind KW_ERZEUGUNG, its year and plant and no month |
| KwNeukirchen.TransferEntriesShape | scripts/analyze_kw_neukirchen.py:24-86 | every transfer entry is a monthly file of a surveyed year with a month in 1..12 and no plant |
| KwNeukirchen.GenerationEntriesShape | scripts/analyze_kw_neukirchen.py:94-145 | every generation entry names a surveyed plant and year and no month |
| KwNeukirchen.CountKind | scripts/analyze_kw_neukirchen.py:191 | a kind is counted at most once per entry |
| KwNeukirchen.KindCountsAddUp | scripts/analyze_kw_neukirchen.py:191-205 | the three kind counts add up to the number of files |
| KwNeukirchen.CountKindPositive | scripts/analyze_kw_neukirchen.py:191 | a kind has a positive count exactly when some entry has it |
| KwNeukirchen.TypesOfCounts | scripts/analyze_kw_neukirchen.py:190-192 | file_types holds, for each kind present, the number of entries of that kind, and no absent kind |
| KwNeukirchen.YearsOfIff | scripts/analyze_kw_neukirchen.py:193 | years_covered is exactly the set of the entries' years |
| KwNeukirchen.PlantsOfIff | scripts/analyze_kw_neukirchen.py:196-197 | power_plants is exactly the set of plants the entries carry |
| KwNeukirchen.OfYear | scripts/analyze_kw_neukirchen.py:201 | year_files holds exactly the entries of that year |
| KwNeukirchen.AvailabilityOf | scripts/analyze_kw_neukirchen.py:200-207 | the files of a year are its BEZUG months plus its LIEFERUNG months plus its plant files, and no more than all files |
| KwNeukirchen.Analyzer.constructor | scripts/analyze_kw_neukirchen.py:11-18 | the three summaries and the file mapping start empty |
| KwNeukirchen.Analyzer.RecordMonthly | scripts/analyze_kw_neukirchen.py:28-58 | a sheet that was read is summarised under year-MM in the summary of its kind and appended to the mapping; a read that raised changes nothing |
| KwNeukirchen.Analyzer.RecordMonth | scripts/analyze_kw_neukirchen.py:28-86 | one month appends the BEZUG entry, then the LIEFERUNG entry, of the files that were read |
| KwNeukirchen.Analyzer.AnalyzeYear | scripts/analyze_kw_neukirchen.py:27-86 | the twelve months of a year folder append their entries in month order |
| KwNeukirchen.Analyzer.AnalyzeTransferFiles | scripts/analyze_kw_neukirchen.py:20-86 | the mapping grows by the entries of the existing year folders, in year order, and the generation summary is unchanged |
| KwNeukirchen.Analyzer.RecordGeneration | scripts/analyze_kw_neukirchen.py:96-145 | a generation sheet that was read is summarised under plant_year with its time information and appended to the mapping; the monthly summaries are unchanged |
| KwNeukirchen.Analyzer.AnalyzePlant | scripts/analyze_kw_neukirchen.py:95-145 | the years of one plant append their entries in year order |
| KwNeukirchen.Analyzer.AnalyzeGenerationFiles | scripts/analyze_kw_neukirchen.py:88-145 | the mapping grows by the generation entries, plants outside and years inside |
| KwNeukirchen.Analyzer.GenerateStatistics | scripts/analyze_kw_neukirchen.py:177-209 | total_files, file_types, years_covered, power_plants and total_rows describe the mapping exactly, and data_availability has exactly the surveyed years, each with its AvailabilityOf record |
| KwNeukirchen.Analyzer.RunAnalysis | scripts/analyze_kw_neukirchen.py:257-282 | transfer files, then generation files, then statistics: the statistics describe the new mapping and name no year or plant beyond the surveyed ones and those already mapped |
| KwNeukirchen.Tally | scripts/analyze_kw_neukirchen.py:189-197 | the loop computes the kind counts, the years, the plants and the total rows of the mapping |
| KwNeukirchen.TallyStep | scripts/analyze_kw_neukirchen.py:190-197 | one more entry bumps its kind's count, adds its year and plant and adds its rows |
| KwNeukirchen.AvailabilityByYear | scripts/analyze_kw_neukirchen.py:199-207 | one availability record per surveyed year, each the AvailabilityOf of that year |
| KwNeukirchen.SurveyedEntry | scripts/analyze_kw_neukirchen.py:24-95 | every entry of a survey is of a listed year and names only a listed plant |
| KwNeukirchen.SurveyCovers | scripts/analyze_kw_neukirchen.py:193-197 | a survey adds only listed years and plants to those already in the mapping |
| KwNeukirchen.StatisticsAddUp | scripts/analyze_kw_neukirchen.py:190-192 | the counts in file_types add up to total_files |
| FisInhauser.FirstEncoding | scripts/analyze_fis_inhauser.py:34-41 | the first encoding whose read with the separator is accepted; every earlier one was not, and none means none was |
| FisInhauser.FirstAttempt | scripts/analyze_fis_inhauser.py:33-41 | the first accepted (separator, encoding) pair with separators outside and encodings inside; no earlier pair was accepted, and none means no pair was |
| FisInhauser.FirstWide | scripts/analyze_fis_inhauser.py:45-52 | the first decimal-comma retry that reads more than one column; none means no retry did |
| FisInhauser.FirstAttemptStays | scripts/analyze_fis_inhauser.py:33-40 | once a pair is accepted, later separators are never tried |
| FisInhauser.FirstWideStays | scripts/analyze_fis_inhauser.py:45-50 | once a retry is wide, later retries are never tried |
| FisInhauser.TryEncodings | scripts/analyze_fis_inhauser.py:34-41 | the encoding loop returns the frame of the first accepted encoding, and nothing exactly when none is accepted |
| FisInhauser.ReadCsvFlexible | scripts/analyze_fis_inhauser.py:28-55 | the method computes the two-phase search Flexible: the main search first, then the decimal-comma retries, else None |
| FisInhauser.FlexibleAccepts | scripts/analyze_fis_inhauser.py:38-55 | a returned frame passed the test of its phase, and None exactly when no attempt of either phase passed |
| FisInhauser.SingleColumnKeepsNoSeparator | scripts/analyze_fis_inhauser.py:38-48 | a one-column frame comes only from the main search, and its one name does not contain the separator it was read with |
| FisInhauser.TimestampTermRedundant | scripts/analyze_fis_inhauser.py:87 | the 'timestamp' term adds nothing to the time-name test, since every name containing it contains 'time' |
| FisInhauser.DatetimeColumns | scripts/analyze_fis_inhauser.py:85-88 | the time columns are exactly the columns whose lower-cased name holds date, datum, zeit, time or timestamp, in column order |
| FisInhauser.CollectDatetimeColumns | scripts/analyze_fis_inhauser.py:85-88 | the loop computes DatetimeColumns |
| FisInhauser.FirstFormat | scripts/analyze_fis_inhauser.py:94-99 | the first of the four formats that parses the whole column; none means every format raised |
| FisInhauser.TryFormats | scripts/analyze_fis_inhauser.py:94-99 | the format loop leaves the column parsed by the first format that succeeds, or unparsed |
| FisInhauser.RecordOf | scripts/analyze_fis_inhauser.py:101-103 | time_start and time_end are recorded whenever the column parsed; they are NaT exactly when no stamp is present, and otherwise the minimum and maximum stamp |
| FisInhauser.DatetimeCells | scripts/analyze_fis_inhauser.py:91 | one cell list per time column, in order |
| FisInhauser.ParsedColumns | scripts/analyze_fis_inhauser.py:91-99 | every time column after its format loop, in order |
| FisInhauser.LastParsed | scripts/analyze_fis_inhauser.py:91-105 | the last time column that parsed; none means none parsed |
| FisInhauser.TimeAfterIsLastParsed | scripts/analyze_fis_inhauser.py:91-105 | each parsed column overwrites time_start/time_end, so the record comes from the last column that parsed |
| FisInhauser.NoTimeIffNoneParsed | scripts/analyze_fis_inhauser.py:91-105 | no time record exactly when no column parsed; a NaT range exactly when the last parsed column holds no stamp |
| FisInhauser.ParseDatetimeColumns | scripts/analyze_fis_inhauser.py:91-105 | the loop over the time columns ends with the record of the last parsed column |
| FisInhauser.PowerIsUpperW | scripts/analyze_fis_inhauser.py:126 | the power test holds exactly for names with an upper-case W, or saying Leistung or Power: 'kW' adds nothing |
| FisInhauser.UpperWIsPower | scripts/analyze_fis_inhauser.py:122-127 | any name with an upper-case W that is neither a temperature nor a flow is a power parameter |
| FisInhauser.GroupParameters | scripts/analyze_fis_inhauser.py:111-133 | the six lists hold, in column order, exactly the columns of their kind |
| FisInhauser.GroupsPartition | scripts/analyze_fis_inhauser.py:120-133 | together the six lists hold each name exactly as often as the columns do |
| FisInhauser.CountInGroup | scripts/analyze_fis_inhauser.py:120-133 | a name occurs in its own kind's list as often as among the columns, and in no other list |
| FisInhauser.GroupSizesAddUp | scripts/analyze_fis_inhauser.py:120-133 | the six list lengths add up to the number of columns |
| FisInhauser.MoreNote | scripts/analyze_fis_inhauser.py:135-165 | only the temperature list prints '... and n more', exactly when it has more than five names, with n the rest |
| FisInhauser.AnalyzeCsvFile | scripts/analyze_fis_inhauser.py:57-174 | None exactly when the reader gives up; otherwise the rows, columns, time record and groups of the frame it returned |
| FisInhauser.StampValues | scripts/analyze_fis_inhauser.py:219-221 | one optional stamp per cell, present exactly for a datetime cell |
| FisInhauser.FirstStampColumn | scripts/analyze_fis_inhauser.py:218-223 | the first column of datetime type; none means no column is one |
| FisInhauser.SheetInfoOf | scripts/analyze_fis_inhauser.py:210-223 | the sheet summary records the row count, the column count and the column names; it has a time range exactly when it has a datetime column, and then start and end are the minimum and maximum stamp of the first such column |
| FisInhauser.SheetsOf | scripts/analyze_fis_inhauser.py:198-227 | the sheets dictionary holds exactly the sheets that were read and are not empty, each with its SheetInfoOf |
| FisInhauser.AnalyzeExcelFile | scripts/analyze_fis_inhauser.py:176-234 | None exactly when the workbook cannot be opened; otherwise the sheet count and the sheets dictionary SheetsOf |
| FisInhauser.HandlerFor | scripts/analyze_fis_inhauser.py:294-300 | CSV exactly for '.csv' or '.CSV', Excel exactly for '.xlsx' |
| ErentrudisMonitoring.TagsOf | scripts/analyze_erentrudis_monitoring.py:61-71 | a tag is listed exactly when some lower-cased column name holds one of its keywords, in the order of the tag tests |
| ErentrudisMonitoring.TagsInOrder | scripts/analyze_erentrudis_monitoring.py:62-71 | the listed tags keep the order of the tag tests |
| ErentrudisMonitoring.TagsOnce | scripts/analyze_erentrudis_monitoring.py:62-71 | each tag is appended at most once |
| ErentrudisMonitoring.TemperaturRedundant | scripts/analyze_erentrudis_monitoring.py:62 | 'temperatur' adds nothing to the temperature test, since every name containing it contains 'temp' |
| ErentrudisMonitoring.Describe | scripts/analyze_erentrudis_monitoring.py:61-71 | the chain of if/append statements computes TagsOf |
| ErentrudisMonitoring.FirstTimeColumn | scripts/analyze_erentrudis_monitoring.py:44-58 | the first column with time, date or zeit in its lower-cased name that converts to naive stamps; every earlier one did not, and none means none did |
| ErentrudisMonitoring.Steps | scripts/analyze_erentrudis_monitoring.py:52 | diff().dropna() has fewer steps than rows |
| ErentrudisMonitoring.StepsHas | scripts/analyze_erentrudis_monitoring.py:52 | every step between two neighbouring stamped rows is among the steps |
| ErentrudisMonitoring.StepsFrom | scripts/analyze_erentrudis_monitoring.py:52 | every step is the difference of some stamped row and the stamped row before it |
| ErentrudisMonitoring.MostCommonAmong | scripts/analyze_erentrudis_monitoring.py:53 | an index of a value occurring at least as often as every other value considered |
| ErentrudisMonitoring.MostCommon | scripts/analyze_erentrudis_monitoring.py:53-55 | value_counts().head(1) is empty exactly for no steps; otherwise a step occurring at least as often as any value |
| ErentrudisMonitoring.Resolution | scripts/analyze_erentrudis_monitoring.py:51-55 | temporal_resolution is a most common step, needs more than one row, and is missing exactly when there is no step |
| ErentrudisMonitoring.ResolutionIsAStep | scripts/analyze_erentrudis_monitoring.py:51-55 | the resolution is the difference of two neighbouring stamped rows; there is none exactly when no two neighbouring rows both have a stamp |
| ErentrudisMonitoring.TimeFactsOf | scripts/analyze_erentrudis_monitoring.py:44-58 | date_range is None exactly when no column qualifies, and then there is no resolution either |
| ErentrudisMonitoring.FindTimeColumn | scripts/analyze_erentrudis_monitoring.py:44-58 | the loop ends with the date range and resolution of TimeFactsOf |
| ErentrudisMonitoring.Stamped | scripts/analyze_erentrudis_monitoring.py:44-58 | the columns left holding stamps are exactly the candidates reached whose conversion did not raise |
| ErentrudisMonitoring.ConvertedLeaveNumeric | scripts/analyze_erentrudis_monitoring.py:47-74 | a column the loop converted is no longer numeric; a non-candidate keeps its cells |
| ErentrudisMonitoring.LaterCandidatesIgnored | scripts/analyze_erentrudis_monitoring.py:56 | the break: a later candidate never displaces the chosen column or its range |
| ErentrudisMonitoring.Attempts | scripts/analyze_erentrudis_monitoring.py:21-26 | one read attempt per encoding, in the order utf-8, iso-8859-1, cp1252 |
| ErentrudisMonitoring.MissingPerColumn | scripts/analyze_erentrudis_monitoring.py:35 | one missing count per column |
| ErentrudisMonitoring.MissingPercentPerColumn | scripts/analyze_erentrudis_monitoring.py:36 | one share per column, NaN exactly for a frame without rows, otherwise between 0 and 100 and 0 exactly when the column has no missing cell |
| ErentrudisMonitoring.AnalyzeCsvFile | scripts/analyze_erentrudis_monitoring.py:17-94 | the error record exactly when every encoding raises; otherwise the summary of the first frame read with its time facts and tags |
| ErentrudisMonitoring.FirstLoadedAt | scripts/analyze_erentrudis_monitoring.py:21-26 | the frame used is the one of the first attempt that did not raise |
| ErentrudisMonitoring.SheetAnalysisOf | scripts/analyze_erentrudis_monitoring.py:113-137 | an error entry exactly when the read raised; otherwise at most the first 20 names, the three sheet tags, and 0 missing for a sheet without rows |
| ErentrudisMonitoring.SheetsOf | scripts/analyze_erentrudis_monitoring.py:112-137 | one entry per analysed sheet name, each its SheetAnalysisOf |
| ErentrudisMonitoring.AnalyzeExcelFile | scripts/analyze_erentrudis_monitoring.py:96-147 | the error record exactly when the workbook cannot be opened; otherwise all sheet names, their number and the analysis of the first five |
| ErentrudisMonitoring.FirstFiveSheets | scripts/analyze_erentrudis_monitoring.py:112 | the analysed sheets are exactly the first five names |
| ErentrudisMonitoring.KindOfFile | scripts/analyze_erentrudis_monitoring.py:169-172 | CSV exactly for a '.csv' ending; Excel exactly for a non-CSV '.xlsx' or '.xls' ending; case-sensitive |
| ErentrudisMonitoring.FilesOfKind | scripts/analyze_erentrudis_monitoring.py:164-174 | a kind's list has at most as many files as were walked |
| ErentrudisMonitoring.FilesOfKindMembers | scripts/analyze_erentrudis_monitoring.py:164-174 | a kind's list holds exactly the walked files of that kind |
| ErentrudisMonitoring.SortFiles | scripts/analyze_erentrudis_monitoring.py:164-174 | all_files gets every walked file; csv_files and excel_files get exactly the files of their kind, in walk order |
| ErentrudisMonitoring.OtherCount | scripts/analyze_erentrudis_monitoring.py:179 | 'Andere Dateien' is never negative: CSV, Excel and other counts add up to the walked files |
| ErentrudisMonitoring.FilesOfKindStep | scripts/analyze_erentrudis_monitoring.py:169-174 | one more walked file adds one to exactly its own kind's count |
| ErentrudisMonitoring.CountIsFiles | scripts/analyze_erentrudis_monitoring.py:242-251 | all_descriptions.count(tag) is the number of files with that tag |
| ErentrudisMonitoring.SummaryTagsOnce | scripts/analyze_erentrudis_monitoring.py:61-71 | every CSV summary carries each tag at most once |
| ScanDaten.Scale | scripts/scan_daten_directory.py:38-41 | the divisor after k steps is 1024 to the k, never below 1 |
| ScanDaten.UnitIndex | scripts/scan_daten_directory.py:38-42 | the unit reached is the first from B on at which the value drops below 1024, or TB when no earlier unit fits |
| ScanDaten.DivideAgain | scripts/scan_daten_directory.py:41 | each further division by 1024 is one more power of 1024 |
| ScanDaten.FormatSize | scripts/scan_daten_directory.py:36-42 | the loop ends at the unit UnitIndex with the size divided by 1024 to that power |
| ScanDaten.ReadableRange | scripts/scan_daten_directory.py:38-42 | for a non-negative size the number shown is below 1024 in every unit but TB, and at least 1 in every unit above B |
| ScanDaten.LastDot | scripts/scan_daten_directory.py:21 | the position of the last '.', and none exactly when there is no dot |
| ScanDaten.Extension | scripts/scan_daten_directory.py:21 | splitext gives either nothing or a '.'-led suffix of the name holding no further dot |
| ScanDaten.InfoOf | scripts/scan_daten_directory.py:13-34 | an error record exactly when stat raises; otherwise the size and the lower-cased extension |
| ScanDaten.Walk | scripts/scan_daten_directory.py:48-50 | the top-down walk visits the root first, with its files |
| ScanDaten.WalkAvoidsPruned | scripts/scan_daten_directory.py:48-50 | every visited directory lies below the root through directories not starting with '.' and not named __pycache__ |
| ScanDaten.WalkChildrenAvoidPruned | scripts/scan_daten_directory.py:50 | the same for the sub-directories kept in dirnames |
| ScanDaten.EntriesOf | scripts/scan_daten_directory.py:58-69 | at most one entry per file, none for names starting with '.' or '~', each with its relative path and its InfoOf |
| ScanDaten.KeptFilesHaveEntries | scripts/scan_daten_directory.py:58-69 | every file not skipped has its entry |
| ScanDaten.AllSkippedNoEntries | scripts/scan_daten_directory.py:60-61 | a directory whose files are all skipped has no entries |
| ScanDaten.CollectEntries | scripts/scan_daten_directory.py:58-69 | the inner loop computes EntriesOf |
| ScanDaten.StructureOf | scripts/scan_daten_directory.py:46-71 | data_structure holds exactly one key per visited directory with file names, holding the entries of its files |
| ScanDaten.ScanDirectory | scripts/scan_daten_directory.py:44-71 | scan_directory computes StructureOf over the pruned walk from the root |
| ScanDaten.SkippedFilesLeaveEmptyList | scripts/scan_daten_directory.py:56-61 | a directory whose every file is skipped still gets its key, with an empty list |
| ScanDaten.Exts | scripts/scan_daten_directory.py:81-84 | the keys of file_types are exactly the extensions of the entries that have one |
| ScanDaten.StatsOf | scripts/scan_daten_directory.py:84-90 | the examples of an extension are the first at most three names with that extension |
| ScanDaten.StatsStep | scripts/scan_daten_directory.py:81-91 | one more entry changes only its own extension's statistics |
| ScanDaten.UnseenStats | scripts/scan_daten_directory.py:83-84 | an extension not seen yet starts from count 0, size 0 and no examples |
| ScanDaten.TallyStep | scripts/scan_daten_directory.py:80-91 | the accumulators stay in step with the statistics of the entries seen |
| ScanDaten.AddEntry | scripts/scan_daten_directory.py:81-91 | one entry bumps its extension's statistics, total_files by one and total_size by its size |
| ScanDaten.TallyEntries | scripts/scan_daten_directory.py:80-91 | the inner loop keeps the accumulators equal to the statistics of all entries seen |
| ScanDaten.AnalyzeDataTypes | scripts/scan_daten_directory.py:73-97 | file_types, total_files and total_size are the statistics of every entry of every directory |
| ScanDaten.TotalIsSumOfCounts | scripts/scan_daten_directory.py:85-91 | total_files is the sum of the per-extension counts |
| ScanDaten.ZeroCounts | scripts/scan_daten_directory.py:75-76 | no entries give zero counts |
| ScanDaten.SumCountsStep | scripts/scan_daten_directory.py:85-91 | one more entry adds one to the sum exactly when it carries an extension among those listed |
| ScanDaten.IdentifyContent | scripts/scan_daten_directory.py:99-131 | a keyword label exactly when a keyword occurs in the lower-cased name; otherwise the extension decides |
| ScanDaten.UnknownSuffixIsDataFile | scripts/scan_daten_directory.py:116-131 | a name without keywords and without a listed suffix as written is a plain data file |
| ScanDaten.TooLongNotContained | scripts/scan_daten_directory.py:104-115 | a keyword longer than the name cannot occur in it |
| ScanDaten.NoKeywordInUpperCaseCsv | scripts/scan_daten_directory.py:101-115 | no keyword occurs in 'x.csv' |
| ScanDaten.UpperCaseCsvIsDataFile | scripts/scan_daten_directory.py:116-131 | the suffix tests are case-sensitive: 'X.CSV' is a plain data file |
| ScanDaten.KeywordBeforeExtension | scripts/scan_daten_directory.py:114-117 | a name keyword wins over the suffix: a CSV with 'temp' in its name is a temperature measurement |
| FileOverview.TableRank | scripts/generate_fileoverview.py:20-26 | a category's position in the table, with Other after every listed one |
| FileOverview.Suffix | scripts/generate_fileoverview.py:36 | Path.suffix is empty, or a '.'-led proper suffix of the name of at least two characters |
| FileOverview.FirstListing | scripts/generate_fileoverview.py:37-39 | the first table entry listing the extension; no earlier entry lists it |
| FileOverview.TestPatternsNeverMatch | scripts/generate_fileoverview.py:25-39 | the glob patterns listed for Test never equal a suffix, so they never decide a category |
| FileOverview.TestIffNameSaysTest | scripts/generate_fileoverview.py:33-34 | a file is a Test file exactly when its lower-cased name contains 'test' |
| FileOverview.FirstListingWins | scripts/generate_fileoverview.py:36-40 | without 'test' in the name, a file gets the category of the first table entry listing its lower-cased suffix |
| FileOverview.ListedCategoryWins | scripts/generate_fileoverview.py:37-40 | an extension gets a category exactly when that category's entry is the first to list it |
| FileOverview.TableRankOfPosition | scripts/generate_fileoverview.py:20-26 | each table position holds a different category |
| FileOverview.FirstListingAt | scripts/generate_fileoverview.py:37-39 | the first listing is at k exactly when entry k lists the suffix and no earlier entry does |
| FileOverview.OtherIffUnlisted | scripts/generate_fileoverview.py:36-40 | without 'test' in the name, a file is Other exactly when no entry lists its lower-cased suffix |
| FileOverview.UpperCaseSuffixMatches | scripts/generate_fileoverview.py:36 | the suffix is lower-cased before the lookup: 'SALES.CSV' is Data |
| FileOverview.RecordsOf | scripts/generate_fileoverview.py:73-78 | a directory records its first 20 files, each with its category |
| FileOverview.ChildrenOf | scripts/generate_fileoverview.py:47-70 | only kept sub-directories get entries, at most one each |
| FileOverview.SubdirNames | scripts/generate_fileoverview.py:47-49 | one name per sub-directory |
| FileOverview.ScanWithinLimits | scripts/generate_fileoverview.py:42-80 | the scan never records a skipped directory or anything deeper than max_depth, at most 20 files per directory, and the root keeps exactly its first 20 files |
| FileOverview.FilesLineOf | scripts/generate_fileoverview.py:114-133 | a files line shows the first five names and counts the rest |
| FileOverview.Indent | scripts/generate_fileoverview.py:88 | two spaces per level |
| FileOverview.MoreNote | scripts/generate_fileoverview.py:116-119 | a files line ends with ' (+n more)' exactly when names were left out, and otherwise with its names |
| FileOverview.SortedRank | scripts/generate_fileoverview.py:114-128 | every category has a place in the sorted order |
| FileOverview.RankIsNameOrder | scripts/generate_fileoverview.py:114-128 | ranking the categories by position is ranking them by name |
| FileOverview.NamesIn | scripts/generate_fileoverview.py:108-126 | files_by_cat[c] holds exactly the names recorded with category c |
| FileOverview.LinesFor | scripts/generate_fileoverview.py:114-119 | only categories that have files get a line |
| FileOverview.CategoryLinesAccountForAll | scripts/generate_fileoverview.py:122-133 | the category lines of a directory account for all of its recorded files |
| FileOverview.CountInStep | scripts/generate_fileoverview.py:109-111 | one more record adds one name to its category |
| FileOverview.CountInAll | scripts/generate_fileoverview.py:108-111 | every record lands in some category |
| FileOverview.CategoryLinesSorted | scripts/generate_fileoverview.py:114-128 | category lines come in strictly ascending order of name |
| FileOverview.CategoryLinesHoldTheirFiles | scripts/generate_fileoverview.py:114-119 | every category line shows at least one name and only names of its category |
| FileOverview.SlotIndex | scripts/generate_fileoverview.py:93 | the entry found for a key holds that key |
| FileOverview.KeyHasSlot | scripts/generate_fileoverview.py:93 | every key of the dictionary is found |
| FileOverview.SortedKeysAreKeys | scripts/generate_fileoverview.py:91-93 | sorted(dirs.items()) visits exactly the directory keys |
| FileOverview.AppendCategoryLines | scripts/generate_fileoverview.py:107-119 | the grouping and the loop over sorted groups append CategoryLines |
| FileOverview.GroupByCategory | scripts/generate_fileoverview.py:108-111 | only categories with files become keys, each with its names in recorded order |
| FileOverview.GroupStep | scripts/generate_fileoverview.py:109-111 | one more record keeps the map equal to the groups of the records seen |
| FileOverview.ProcessDir | scripts/generate_fileoverview.py:86-119 | process_dir appends the lines DirLines of its dictionary |
| FileOverview.ProcessKeys | scripts/generate_fileoverview.py:93-119 | the loop over the sorted keys appends their lines in key order |
| FileOverview.AppendEntry | scripts/generate_fileoverview.py:98-119 | one key: its header, the lines below it, then its own files |
| FileOverview.GenerateMarkdown | scripts/generate_fileoverview.py:82-142 | generate_markdown produces the root's category lines followed by the directory lines |
| FileOverview.ScanShape | scripts/generate_fileoverview.py:59-78 | as written, entries keep no files and the files sit in the inner dictionaries; corrected, the same files sit in the entries |
| FileOverview.ScanKeysDistinct | scripts/generate_fileoverview.py:63-66 | a tree without repeated directory names gives dictionaries without repeated keys |
| FileOverview.ListedCounts | scripts/generate_fileoverview.py:86-119 | the directory lines account for as many names as the dictionary's entries |
| FileOverview.NothingListedBelow | scripts/generate_fileoverview.py:107 | when every entry's own list is empty the directory lines list no file |
| FileOverview.KeysCountReordered | scripts/generate_fileoverview.py:93 | the order in which keys are visited does not change their total |
| FileOverview.DirLinesListEntryFiles | scripts/generate_fileoverview.py:86-119 | with distinct keys, the directory lines list exactly the files held in the entries |
| FileOverview.RecordedInEntries | scripts/generate_fileoverview.py:59-78 | when the inner dictionaries hold no files, everything recorded is in the root list or an entry |
| FileOverview.ScansRecordSameFiles | scripts/generate_fileoverview.py:73-78 | the corrected scan records as many files as the scan as written |
| FileOverview.AsWrittenListsRootOnly | scripts/generate_fileoverview.py:62-107 | as written, the overview lists only the root's files, whatever is recorded below it |
| FileOverview.IntendedListsEveryFile | scripts/generate_fileoverview.py:62-107 | with the files stored in the entries, every recorded file is listed |
| FileOverview.SubdirectoryFileNotListed | scripts/generate_fileoverview.py:62-107 | a root with one sub-directory holding werte.csv: recorded once but listed nowhere as written; listed once when corrected |
| FileCount.WalkOrder | scripts/generate_fileoverview.py:149-150 | the walk visits the directory itself first, then the sub-directories outside SKIP_DIRS |
| FileCount.Extensions | scripts/generate_fileoverview.py:153 | one extension per file, in order |
| FileCount.Occurrences | scripts/generate_fileoverview.py:154 | an extension is counted at most once per file |
| FileCount.CountFilesInDir | scripts/generate_fileoverview.py:144-156 | total is the number of files the walk reaches, by_type counts each extension among them, and total is the sum of by_type's values |
| FileCount.CountWalk | scripts/generate_fileoverview.py:149-154 | over the directories the walk yields, total is the number of files in them and by_type counts each extension among those files |
| FileCount.CountFiles | scripts/generate_fileoverview.py:151-154 | the inner loop raises total and each file's extension count by one |
| FileCount.ExtensionsAppend | scripts/generate_fileoverview.py:151-154 | the extensions of two lists are those of the first, then those of the second |
| FileCount.TallyStep | scripts/generate_fileoverview.py:154 | one more extension raises its count by one and leaves the others alone |
| FileCount.TalliedTotal | scripts/generate_fileoverview.py:152-154 | the counts of a tally add up to the number of files |
| FileCount.UntallyLast | scripts/generate_fileoverview.py:154 | taking the last file back out gives the tally of the others |
| FileCount.SumValuesRemove | scripts/generate_fileoverview.py:154 | the sum of the counts does not depend on which key is taken out first |
| UiComponents.MaxRowsFor | src/ui_components_improved.py:78-84 | the caller's max_rows when given; otherwise every row, capped at 100000 |
| UiComponents.Head | src/ui_components_improved.py:91-98 | head(k) keeps the first k rows, or for a negative k all but the last -k |
| UiComponents.NewestRows | src/ui_components_improved.py:87-93 | the rows kept are in ascending date order and as many as head(max_rows) keeps |
| UiComponents.DataTable | src/ui_components_improved.py:65-101 | no table exactly for an empty frame; otherwise as many rows as head(max_rows) keeps |
| UiComponents.LimitedIffRowsDropped | src/ui_components_improved.py:101-143 | the 'limited' note appears exactly when rows were left out, for any max_rows including negative ones |
| UiComponents.DefaultShowsUpToCap | src/ui_components_improved.py:78-101 | without max_rows every row up to 100000 is shown and the note appears only above 100000 rows |
| UiComponents.FirstRowsShown | src/ui_components_improved.py:87-98 | small tables, tables without Date and unsortable dates show their first rows in frame order |
| UiComponents.NewestRowsShown | src/ui_components_improved.py:87-93 | tables above 20000 rows with Date show rows of the frame, ascending by date, none older than a row left out |
| UiComponents.NewestRowsAreNewest | src/ui_components_improved.py:90-93 | the rows kept are a sub-multiset of the frame, and none is older than a row left out |
| UiComponents.SplitMultiset | src/ui_components_improved.py:91 | cutting a list in two splits its multiset in two |
| UiComponents.NewestFirstSplit | src/ui_components_improved.py:90-91 | in a list sorted newest first, nothing before the cut is older than anything after it |
| UiComponents.PanelDateColumn | src/ui_components_improved.py:255-267 | the x column is a column, and there is none exactly when the frame has no columns |
| UiComponents.DateFallbackUnreachable | src/ui_components_improved.py:263-267 | the second test for Date never fires: without a candidate the first column is used |
| UiComponents.DefaultY | src/ui_components_improved.py:273-284 | the nested keyword and column loops compute DefaultYOf |
| UiComponents.FirstMatchHeads | src/ui_components_improved.py:275-281 | the first match found after no earlier match heads the keyword order |
| UiComponents.MatchingNone | src/ui_components_improved.py:276-277 | no column mentions the keyword: no matches |
| UiComponents.KeywordOrderNone | src/ui_components_improved.py:275-281 | no column mentions any keyword: no matches at all |
| UiComponents.DefaultYIsFirstMatch | src/ui_components_improved.py:274-281 | the default y is the first option mentioning the earliest keyword any option mentions |
| UiComponents.DefaultYWithoutMatch | src/ui_components_improved.py:283-284 | when no option mentions a keyword the default y is the first option |
| UiComponents.DefaultYIsOption | src/ui_components_improved.py:273-284 | there is a default y exactly when there are y options, and it is one of them |
| UiComponents.DefaultYHeadsDefaultParams | src/ui_components_improved.py:273-284 | the single default y is the first of the three defaults of the advanced panel |
| UiComponents.VisualizationPanel | src/ui_components_improved.py:242-284 | no panel exactly for an empty frame; otherwise the x column, the y options without it, and the default y |
| UiComponents.AxesApart | src/ui_components_improved.py:270-284 | the x column is never offered for y, and the default y is an offered option other than x |
| UiComponents.DescriptionKeys | src/ui_components_improved.py:452-492 | a known source's keys start with 'default'; an unknown source has none |
| UiComponents.FirstContainedKey | src/ui_components_improved.py:496-498 | the first key other than 'default' contained in the name; no earlier key qualifies, and none means none does |
| UiComponents.DatasetDescription | src/ui_components_improved.py:447-500 | a stored text of the source under one of its keys for a known source, a generated text exactly for an unknown one |
| UiComponents.DescriptionByFirstKey | src/ui_components_improved.py:495-498 | a named dataset gets the first key in table order that its lower-cased name contains |
| UiComponents.DescriptionFallback | src/ui_components_improved.py:500 | without a matching key, a known source gets its default text and an unknown one 'Dataset aus' and the upper-cased source |
| UiComponents.TracesUpTo | src/ui_components_improved.py:509-533 | at most one trace per zipped pair, in frame order, each coloured by its frame index modulo the palette size |
| UiComponents.EveryDrawableFrameDrawn | src/ui_components_improved.py:511-533 | every frame with Date, rows and a numeric column gets a trace in a line or bar chart |
| UiComponents.ColoursCycle | src/ui_components_improved.py:524-531 | two frames eight apart share a colour, and a skipped frame still uses up its colour |
| Axes.FirstPresent | src/ui_components_improved.py:257-260 | the first candidate that is a column; no earlier candidate is, and none means none is |
| Axes.FirstDateCandidate | src/visualization_improved.py:25-28 | the first of Date, DateTime, Datum + Uhrzeit, Zeit and Timestamp present; none means none is present |
| Axes.DateIsPreferred | src/visualization_improved.py:25-28 | Date heads the candidates, so it is chosen whenever it is a column |
| Axes.YOptions | src/visualization_improved.py:37 | the y options are exactly the numeric columns other than the date column |
| Axes.MatchingMembers | src/visualization_improved.py:48-49 | a keyword's matches are exactly the columns whose lower-cased name contains it |
| Axes.KeywordOrderMembers | src/visualization_improved.py:47-49 | every keyword match is a column |
| Axes.Firsts | src/visualization_improved.py:49-59 | the first occurrences hold exactly the elements |
| Axes.FirstsDistinct | src/visualization_improved.py:49-59 | the 'not in default_params' test never repeats an element |
| Axes.FirstsOfPrefix | src/visualization_improved.py:49-53 | the first occurrences in a prefix are a prefix of those of the whole |
| Axes.FirstsStep | src/visualization_improved.py:49-50 | one more element is appended unless it was seen |
| Axes.MatchingPrefix | src/visualization_improved.py:48-49 | the matches among the first columns are a prefix of all matches |
| Axes.MatchingStep | src/visualization_improved.py:48-49 | one more column is appended when it mentions the keyword |
| Axes.KeywordOrderStep | src/visualization_improved.py:47-49 | one more keyword: its matches follow those of the earlier keywords |
| Axes.KeywordOrderPrefix | src/visualization_improved.py:47-53 | the matches of the first keywords are a prefix of all matches |
| Visualization.DateColumn | src/visualization_improved.py:23-31 | the date column, when there is one, is a column |
| Visualization.DateFallbackUnreachable | src/visualization_improved.py:30-31 | the second test for Date never changes the choice |
| Visualization.DefaultParams | src/visualization_improved.py:43-62 | the two append loops compute DefaultParamsOf |
| Visualization.PickMatches | src/visualization_improved.py:48-52 | the inner loop keeps the first occurrences of the matches seen and stops at three |
| Visualization.FillUp | src/visualization_improved.py:57-62 | the fill-up loop leaves the first three first occurrences of the chosen matches followed by the options |
| Visualization.ChosenEarly | src/visualization_improved.py:51-62 | once three parameters are chosen, the rest of the candidates cannot change the choice |
| Visualization.DefaultsAreDistinctOptions | src/visualization_improved.py:43-62 | the defaults are distinct y options |
| Visualization.DefaultsCount | src/visualization_improved.py:43-62 | with distinct options exactly min(3, number of options) parameters are ticked |
| Visualization.KeywordMatchesFirst | src/visualization_improved.py:47-62 | a ticked parameter matching a keyword is never preceded by one matching none |
| Visualization.AdvancedPanel | src/visualization_improved.py:16-62 | no data for an empty frame; the warning exactly without y options; otherwise the date column, the y options and the defaults |
| Visualization.SmoothedColumns | src/visualization_improved.py:168-172 | smoothing keeps every column |
| Visualization.TracesFor | src/visualization_improved.py:222-238 | traces only for selected parameters that are columns |
| Visualization.ParamTraces | src/visualization_improved.py:223-238 | the traces of one parameter are about it |
| Visualization.RowTraces | src/visualization_improved.py:273-295 | the traces of the i-th selected parameter go into row i, within the selection |
| Visualization.Charts | src/visualization_improved.py:174-216 | at most one chart per selected parameter |
| Visualization.VisualizationFigure | src/visualization_improved.py:151-310 | the warning exactly for an empty selection; subplots have one row per selected parameter and 250 pixels per row |
| Visualization.SmoothedParamHasMean | src/visualization_improved.py:168-172 | with smoothing and a date column every selected column gets its _smooth column |
| Visualization.NoDateNoNewMeans | src/visualization_improved.py:168-232 | without a date column a rolling mean is drawn only for a parameter whose _smooth column was loaded |
| Visualization.SmoothedTraceNeedsColumn | src/visualization_improved.py:192-286 | a rolling-mean trace needs the _smooth column |
| Processing.DatasetKeysMatchFiles | src/data_processor.py:20-28 | the five dataset keys are the keys of the file table, in load order |
| Processing.DatasetKeysDistinct | src/data_processor.py:20-26 | no dataset key repeats, so each file gets its own entry |
| Processing.ReadDataset | src/data_processor.py:29-41 | the frame stored is well formed, and a non-empty one has its Date column parsed to stamps |
| Processing.ReadFailureIsEmpty | src/data_processor.py:30-41 | a missing file, a read that raises, a frame without Date or a Date cell the format rejects all store the empty frame |
| Processing.ReadSuccessParsesDates | src/data_processor.py:32-34 | a successful load keeps the columns and rows, and its Date cells are the originals parsed with '%d.%m.%Y %H:%M:%S,%f' |
| Processing.WithKeys | src/data_processor.py:34-41 | assigning keys keeps the old key order and appends each new key once |
| Processing.MissingCells | src/data_processor.py:58-151 | a column has at most as many missing cells as rows |
| Processing.NumericColumns | src/data_processor.py:51 | exactly the numeric columns |
| Processing.MissingInColumns | src/data_processor.py:58 | the missing cells of the numeric columns are at most columns times rows |
| Processing.Stamps | src/data_processor.py:56 | the Date stamps are exactly the non-NaT cells |
| Processing.Earliest | src/data_processor.py:56 | min() is a stamp no later than any other, and NaT exactly when there is none |
| Processing.Latest | src/data_processor.py:56 | max() is a stamp no earlier than any other, and NaT exactly when there is none |
| Processing.CompletenessIsPercentage | src/data_processor.py:59 | completeness lies between 0 and 100, and is 100 exactly when no numeric cell is missing |
| Processing.DateRangeSpansStamps | src/data_processor.py:56 | both ends of the date range are stamps of the Date column and every stamp lies between them |
| Processing.StatisticsOfNonEmpty | src/data_processor.py:49-60 | the report has an entry for exactly the non-empty datasets, each with that dataset's statistics |
| Processing.FlaggedIsOverTenPercent | src/data_processor.py:155 | a column is flagged exactly when its missing count exceeds a tenth of the rows |
| Processing.FlaggedColumns | src/data_processor.py:151-156 | exactly the flagged columns, in column order |
| Processing.GapCount | src/data_processor.py:160-162 | at most one gap per row |
| Processing.GapCountPositive | src/data_processor.py:160-163 | there are gaps exactly when some consecutive pair of dates is more than 1.5 hours apart |
| Processing.EmptyDatasetOneIssue | src/data_processor.py:146-148 | an empty dataset yields the one 'Keine Daten vorhanden' issue and nothing else |
| Processing.ColumnIssuesExactly | src/data_processor.py:151-156 | each column issue names a flagged column with its missing count, and each flagged column has its issue |
| Processing.GapIssueIffGap | src/data_processor.py:159-164 | at most one gap issue, present exactly when the frame has Date and a gap |
| Processing.NonEmptyDatasetIssues | src/data_processor.py:145-164 | a non-empty dataset yields the flagged-column issues and at most one gap issue, never 'no data' |
| Processing.NoDataIffEmpty | src/data_processor.py:145-148 | a dataset is reported as holding no data exactly when it is empty |
| Processing.NoDataIssueOf | src/data_processor.py:146-147 | only an empty dataset gives a 'no data' issue, naming itself |
| Processing.DataProcessor.constructor | src/data_processor.py:14-16 | the processor keeps its data path and starts with an empty dictionary |
| Processing.DataProcessor.LoadAllData | src/data_processor.py:18-43 | every dataset key is stored, new keys appended in load order, each with its file's frame or the empty frame |
| Processing.DataProcessor.Store | src/data_processor.py:34-41 | self.data[key] = df: a new key joins the end of the key order, a known key keeps its place |
| Processing.DataProcessor.CalculateStatistics | src/data_processor.py:45-62 | calculate_statistics computes Statistics over the keys in order |
| Processing.DataProcessor.CheckDataQuality | src/data_processor.py:141-166 | check_data_quality computes the issues of every dataset, in key order |
| Processing.LoadedFrame | src/data_processor.py:29-41 | the frame stored under a dataset key is well formed and has its dates parsed when non-empty |
| Processing.LoadsDomain | src/data_processor.py:28-41 | after the load the dictionary holds the earlier keys and the dataset keys, no others |
| Processing.LoadsDatasets | src/data_processor.py:28-41 | after the load every dataset key holds its file's frame, or the empty frame when the file is missing or unreadable |
| Processing.LoadsKeepsOthers | src/data_processor.py:28-41 | the load leaves every other key's frame alone |
| Processing.StatisticsStep | src/data_processor.py:49-60 | one more key adds its statistics exactly when its dataset is non-empty |
| Processing.QualityStep | src/data_processor.py:145-164 | one more key appends that dataset's issues |
| Processing.DatasetChecks | src/data_processor.py:150-164 | the column loop and the gap check of one non-empty dataset compute its issues |
| Categories.FirstMatch | scripts/csv_comparison_simple.py:42-59 | the first rule with a keyword inside the name; no earlier rule has one |
| Categories.ClassifyIsFirstMatch | scripts/csv_comparison_simple.py:42-59 | with distinct labels, a name gets rule i's label exactly when rule i matches and no earlier rule does |
| Categories.ClassifyFallback | scripts/csv_comparison_simple.py:58-59 | a name gets the fallback label exactly when no rule matches |
| Categories.EarlierRuleWins | src/column_toggle_component.py:36-38 | a matching rule wins over every later one |
| Categories.Group | scripts/compare_all_files.py:61-79 | a category's list holds exactly the names the classifier puts there, in input order and with their multiplicity |
| Categories.GroupKeepsOrder | scripts/compare_all_files.py:61-79 | grouping a concatenation groups each part and keeps them in order |
| Categories.SizesSumToCount | src/column_toggle_component.py:31-87 | the group sizes over a repeat-free list of labels covering every name add up to the number of names |
| Categories.SumSizesStep | src/column_toggle_component.py:31-87 | one more name adds one to the total when its label is listed once |
| Categories.GroupInto | src/column_toggle_component.py:13-87 | the append loop leaves one list per label, each that label's group |
| Categories.AddName | src/column_toggle_component.py:84-87 | one pass: the name joins its label's list and every list stays its group |
| Categories.GroupSnoc | src/column_toggle_component.py:84-87 | one more name is appended to exactly its own label's group |
| Categories.NonEmpty | src/column_toggle_component.py:90 | the filtered dictionary holds exactly the non-empty groups, each with its list |
| Categories.NonEmptyKeepsOrder | src/column_toggle_component.py:17-90 | dropping empty groups keeps the labels in their fixed order |
| Categories.NonEmptyTotal | src/column_toggle_component.py:90 | dropping the empty groups does not change how many names the groups hold |
| Spans.DurationBounds | scripts/compare_all_files.py:37 | (max − min).days + 1 counts the whole days in the span plus one, and is at least 1 |
| Spans.TimeRange | scripts/analyze_erentrudis_monitoring.py:49 | min() and max() skipping NaT: none exactly when every cell is NaT; otherwise two present stamps bounding every stamp |
| Spans.AdjacentDiffs | scripts/compare_all_files.py:40 | diff().dropna() holds exactly the differences of neighbouring present stamps, at most one per row after the first |
| Spans.Interval | scripts/compare_all_files.py:41 | mode()[0] is a most frequent difference, and none exactly when there is no difference |
| Spans.IntervalExists | scripts/missing_data_analysis.py:152 | two neighbouring stamps give an interval |
| Spans.RegularInterval | scripts/missing_data_analysis.py:152 | rows at a regular step have that step as interval |
| DateFormat.Blanks | scripts/csv_detailed_analysis.py:22 | the blank in the pattern matches the leading whitespace run, whitespace being every character re's \s matches (Unicode spaces included) |
| DateFormat.FromFields | scripts/csv_detailed_analysis.py:22 | fields accepted as strptime's patterns accept them (`\d` any Unicode decimal digit, bracketed ranges ASCII) give a valid calendar timestamp |
| DateFormat.Parse | scripts/csv_detailed_analysis.py:18-24 | strptime with '%d.%m.%Y %H:%M' returns only valid calendar timestamps and None in every ValueError case |
| DateFormat.ArabicIndicYearParses | scripts/csv_detailed_analysis.py:22 | a year written in Arabic-Indic digits parses to its value, as `\d` and int() accept it |
| DateFormat.NonAsciiTensOfMinuteRejected | scripts/csv_detailed_analysis.py:22 | the tens digit of a two-digit minute must be an ASCII 0-5, while a one-digit minute may be any decimal digit |
| DateFormat.Padded | scripts/csv_detailed_analysis.py:22 | a zero-padded field has exactly its width in digits |
| DateFormat.PaddedValue | scripts/csv_detailed_analysis.py:22 | a padded field reads back as its number |
| DateFormat.Format | scripts/csv_detailed_analysis.py:22 | a formatted timestamp is 16 characters long |
| DateFormat.ParseFormat | scripts/csv_detailed_analysis.py:18-24 | formatting a valid timestamp and parsing it back gives the same timestamp |
| DateFormat.ParseJoined | scripts/csv_detailed_analysis.py:18-24 | five accepted fields joined by the pattern's separators parse to their values |
| DateFormat.DaysBeforeMonth | scripts/csv_detailed_analysis.py:22 | days before a month grow by that month's length and reach the year's length after December |
| DateFormat.WithinYear | scripts/csv_detailed_analysis.py:22 | a timestamp's day number lies within its year |
| DateFormat.SecondsOrdered | scripts/csv_detailed_analysis.py:40-44 | the seconds scale orders timestamps as Python compares them and is injective |
| Order.LeTotal | scripts/compare_relevant_fixed.py:75-77 | string order is total |
| Order.LeAntisymmetric | scripts/compare_relevant_fixed.py:75-77 | string order is antisymmetric |
| Order.LeTransitive | scripts/compare_relevant_fixed.py:75-77 | string order is transitive |
| Order.Insert | scripts/compare_relevant_fixed.py:75-77 | inserting into a sorted list keeps it sorted and adds exactly the element |
| Order.Sort | scripts/compare_relevant_fixed.py:75-77 | sorted() is a sorted permutation of its input |
| Order.SortedUnique | scripts/compare_relevant_fixed.py:75-77 | two sorted lists with the same elements are equal, so sorted() is canonical |
| Order.SortIgnoresOrder | scripts/compare_relevant_fixed.py:75-77 | reordering a list does not change its sorted form |
| Order.Dedup | scripts/compare_fis_datasets.py:99 | a set built in order holds each element once |
| Order.SortedSet | scripts/compare_relevant_fixed.py:75 | sorted(set(xs)) is strictly ascending and holds exactly the elements of xs |
| Order.SortBy | scripts/final_comparison.py:147 | sorted(key=...) is a permutation in ascending key order |
| Order.PermutationKeepsDistinct | scripts/compare_relevant_fixed.py:75-77 | reordering a list without repeats keeps it without repeats |
| Order.SortedSetPermutes | scripts/compare_relevant_fixed.py:75-77 | for a list without repeats, sorted(set(xs)) is a reordering of xs |
| Order.DistinctCard | scripts/compare_relevant_fixed.py:75-77 | a list without repeats has as many elements as its set |
| Strings.Lower | scripts/csv_comparison_simple.py:44 | lower() maps each character and keeps the length |
| Strings.Upper | src/ui_components_improved.py:500 | upper() maps each character and keeps the length |
| Strings.Take | scripts/compare_relevant_fixed.py:122 | s[:n] is the first min(n, len) elements |
| Strings.ReplaceChar | scripts/csv_detailed_analysis.py:55 | replace(a, b) on single characters changes exactly the a's |
| Strings.ReplaceCharCount | scripts/csv_detailed_analysis.py:55 | replace(a, b) leaves no a, adds the a's to the b's, and keeps every other character's count |
| Strings.ReplaceCharAppend | scripts/csv_detailed_analysis.py:55 | replace(a, b) works piece by piece |
| Strings.RemoveChar | scripts/csv_detailed_analysis.py:55 | replace(c, '') leaves no c, adds nothing, and changes nothing when c is absent; with Strings.RemoveCharCount every other character keeps its number of occurrences |
| Strings.RemoveCharCount | scripts/csv_detailed_analysis.py:55 | replace(c, '') keeps every other character as often as it occurs |
| Strings.RemoveCharAppend | scripts/csv_detailed_analysis.py:55 | replace(c, '') works piece by piece, so the kept characters stay in their order |
| Strings.ReplaceAll | src/data_loader_improved.py:287 | replace(pat, rep) changes nothing when the pattern does not occur; Strings.ReplaceAllAt states the leftmost non-overlapping replacement at each occurrence |
| Strings.ReplaceAllAt | src/data_loader_improved.py:297 | at the first occurrence the text before it is kept, the occurrence becomes rep and replacing goes on after it: leftmost, non-overlapping replacement |
| Strings.Words | scripts/csv_comparison_simple.py:78 | split() yields non-empty runs of characters that are not whitespace in the sense of str.isspace() (Unicode spaces and U+001C-U+001F included) taken from the text; Strings.WordsHead and Strings.WordsSpaceAppend state which runs, in order |
| Strings.WordsEmptyIffBlank | scripts/csv_comparison_simple.py:78 | split() is empty exactly for blank text |
| Strings.WordsBreakAtUnicodeSpace | scripts/csv_comparison_simple.py:78 | split() breaks at Unicode whitespace too: a lone NO-BREAK SPACE gives no word and U+001C separates two words |
| Strings.WordsSpaceAppend | scripts/csv_comparison_simple.py:78 | split() of two texts joined by a whitespace character is the split of the first followed by the split of the second |
| Strings.WordsOfWord | scripts/csv_comparison_simple.py:78 | a non-empty text without whitespace splits into itself alone |
| Strings.WordsHead | scripts/compare_fis_datasets.py:98 | split()[0] is the whitespace-free run that follows the leading whitespace |
| Strings.WordsSkipRun | scripts/csv_comparison_simple.py:78 | leading whitespace does not change split() |
| Strings.IndexOf | scripts/compare_fis_datasets.py:96 | the first occurrence of the pattern; none means it does not occur |
| Strings.ContainsFound | scripts/compare_fis_datasets.py:95-96 | a contained pattern is found |
| Strings.SplitOn | scripts/final_comparison.py:90 | split(sep) is the whole text exactly when the separator is absent, and otherwise starts with the text before its first occurrence |
| Strings.SplitOnJoin | scripts/final_comparison.py:90 | joining the parts of split(sep) with sep gives the text back |
| Strings.SplitOnPartsFree | scripts/final_comparison.py:90 | no part of split(sep) contains sep |
| Strings.SplitOnOnce | scripts/final_comparison.py:90 | a text with exactly one separator character splits into the text before it and the text after it |
| Strings.SplitOnSecond | scripts/compare_fis_datasets.py:96-98 | the second part of a split is the text after the first separator, up to the next one |
| Strings.StripChar | scripts/compare_fis_datasets.py:98 | strip(c) is the text with its leading run of c and then its trailing run of c removed; the result neither starts nor ends with c |
| Strings.NatToString | scripts/generate_fileoverview.py:118 | str(n) is a non-empty run of digits whose decimal value is n, with no leading zero except for 0 itself |

## Left out

- Dash and Plotly: layouts, callbacks, figures, stores, the navigation bar, metric cards, the statistics panel of the UI components, and the figure layout details of the visualisation panel. They build screens and decide nothing. Only the selection rules of those files are modelled.
- Readers and parsers: `read_csv`, `read_excel`, `to_datetime` (including its flexible and day-first inference), `interpolate`, `mode`, `value_counts` and `merge`. Each is a parameter of the model, because they are library code. The rules are proved for every behaviour of them.
- Tie order: which of several equally old cache entries is evicted first. The model only promises "the oldest timestamps". For `mode()[0]` the model returns the smallest of the tied values, as pandas lists the modes in ascending order.
- Sorting ties: Python's sort is stable. The model keeps stability only where it matters (`Order.SortBy` is a permutation in key order, not necessarily the stable one).
- Byte-level text decoding: each encoding is a candidate in the search order. What a decoder does with the bytes is part of the reader parameter.
- Floating point:
  - means, standard deviations, medians, quantiles and correlations;
  - the 3σ outlier test of the missing-data report;
  - rolling means in the visualisation;
  - float32 downcasts;
  - `.1f`/`.2f` formatting.
  These need IEEE arithmetic. Exact comparisons use `real` or `int`, and ratios are stated as exact fractions.
- Sub-second precision: timestamps are whole seconds. The `%f` part of the data processor's date format is a parameter of its date parser.
- MD5 (RFC 1321) in `_get_cache_key` and `get_file_hash`: the cache key is the text before hashing, which assumes the hash has no collisions. A file digest is an input string.
- Clocks: `time.time()` is a parameter `now` of the cache operations.
- Random sampling of rows in `_load_from_parquet`: a random choice the model cannot state deterministically. The rest of the Parquet read path (`_load_from_parquet`, `get_dataset_info`, `preload_datasets`, the performance statistics and the legacy fallback loaders) only calls pyarrow or the other loaders and prints.
- The filesystem: `os.walk`, `glob`, `os.stat`, `mimetypes`, modification times and existence tests are parameters: a directory tree value, a stat outcome, an "exists" flag.
- Output: printing, the JSON reports, `clean_dict`, the Markdown and Excel files, and the temporary CSV files. The model computes the values that would be written.
- `main` functions and report printing of the scripts:
  - the time-alignment prints and mean/std lines of compare_fis_datasets;
  - the min/max/mean prints of compare_durchfluss;
  - `analyze_file` and the correlation of compare_relevant_files;
  - the correlation message of compare_relevant_fixed;
  - `compare_datasets` and the JSON output of analyze_fis_inhauser, plus its duration print;
  - the main of scan_daten_directory;
  - the main of generate_fileoverview (overview lines, descriptions, file writing);
  - sections 2 and 3 of csv_detailed_analysis, and its unused `parameter_mapping`.
  They only print values computed by the modelled rules.
- KwNeukirchen: `sample_data_quality` (a random sample and float statistics), and the `file_size_kb` and `dtypes` fields of a file entry, which are file-system and pandas facts.
- Processing: `get_pv_metrics`, `get_climate_metrics`, `get_ventilation_metrics` and `export_summary`. They compute float means and maxima, and write an Excel file.
- ErentrudisMonitoring: the numeric statistics of the first five numeric columns (min, max, mean, std and median, all floats) and `memory_usage`. The cap of five columns is modelled.
- CsvComparison: `compare_values_at_timestamp` (a merge, correlation and statistics over floats); `analyze_erentrudisstr_data`'s `analyze_csv_file`, `analyze_excel_file` and `main` apart from the datetime detection and comparison rules, which only run pandas readers and statistics.
- AllFiles: `check_data_overlap`, which merges frames on the time column with pandas and prints.
- SimpleComparison: `read_csv_data`, the summary verdicts and the `c1 != c2` filter, which only print.
- SimpleComparison.LineCount: counts '\n' line breaks only. A bare '\r' line break, which Python's text mode would also accept, is not modelled.
- Durchfluss.CompareColumns: `Series.equals` on each common column also compares dtypes. The model compares values cell by cell.
- Durchfluss.CheckDataConsistency: the timestamp comparison `Series.equals` also compares dtypes. The model compares values cell by cell.
- MissingDataAnalysis.MissingInfoOf: compares the exact percentage with 50. The script compares the percentage after `round(..., 2)` (scripts/missing_data_analysis.py:58, 351), so a percentage in (50, 50.005) is critical in the model and not in the script.
- DetailedAnalysis.WordTokens: `\w` is modelled as a fixed character class (ASCII letters and digits, underscore, the German umlauts and ß, and ² and ³). Python's full Unicode word class is not modelled.
- Strings.Lower: maps ASCII letters and Ä, Ö, Ü only. Other Unicode case mappings are not modelled.
- Strings.Upper: maps ASCII letters and ä, ö, ü only, the reverse of `Strings.Lower`. Other Unicode case mappings are not modelled.
- `NaT` handling: missing timestamps are `None`. pandas comparisons with `NaT` are not modelled beyond skipping them.
- ImprovedLoader.ParseDateColumn: runs the corrected Erentrudis format loop, in which each format parses the original column. The loop as written differs only when the timestamp column is itself named `Date`; `ImprovedLoader.ParsedDatesAsWritten` proves they agree otherwise, and the Findings row holds the as-written behaviour.
- ImprovedLoader: the `__init__` path constants, logging and the module-level convenience functions only wire up the modelled operations.
- ParquetOptimizer.DataOptimizer.ConvertToParquet: the CSV or Excel load and the pyarrow write are inputs (`loaded`, `written`). The model does not capture the written file itself: its bytes, the snappy compression and dictionary encoding, and the dtypes `_optimize_datatypes` gives the frame. It also does not capture the metadata fields `original_file`, `parquet_file`, `size_mb`, `converted_at` and `compression_ratio`, which are path, file-size, clock and float facts, or the JSON written by `_save_metadata`. The index columns `_add_indices` adds are modelled.
- OptimizedLoader.OptimizedDataLoader.LoadDatasetOptimized: the Parquet or legacy read, together with its column selection, filters and sampling, is the input `loaded`. The model does not capture which file it reads or the dtype changes of `_optimize_dataframe` on the legacy path. The pickle file written on a cache save and the float load time are not modelled. The load time is the input `elapsed`.
- Process plumbing and concurrency in the start script: subprocesses, the browser thread and the server start.

## Findings

| source | as written | input that shows it | evidently intended | confidence | as-written member | corrected member |
|---|---|---|---|---|---|---|
| scripts/generate_fileoverview.py:62-70 | the files of a sub-directory are stored in the inner `_dirs` dictionary (line 66), but the renderer lists a directory's files from `_files` (lines 103-107), so only the root's files are ever listed | a root "Daten" whose sub-directory "Beispieldaten" holds werte.csv | every recorded file is listed under its directory | not executed | FileOverview.SubdirectoryFileNotListed | FileOverview.IntendedListsEveryFile |
| src/data_loader_improved.py:168-184 | each format overwrites `df['Date']` and then parses `df[date_col_name]`; when the timestamp column is itself named `Date`, a format that fails turns the column into `NaT`, and every later format parses only `NaT` | an Erentrudis file whose column `Date` holds '01.01.2024 00:00' (only the fifth format reads it) | each format parses the original column, so the first format valid for more than half the rows wins | not executed | ImprovedLoader.DateNamedColumnLosesLaterFormats | ImprovedLoader.ParseErentrudisDates |
| scripts/final_comparison.py:87-104 | the one-column header is split at its commas (line 90) into parameters, and 'Andere' is their count minus the four group counts, so a parameter that appears twice or falls in two groups is subtracted more than once | the one-column header "Puffer Pumpe,Puffer Pumpe", whose two parameters both count as Pumpen/Zirkulation ('Pumpe') and as Pufferspeicher ('Puffer'), so it prints 'Andere: -2' | 'Andere' counts exactly the parameters in no group | not executed | FinalComparison.OtherAsWrittenNegative | FinalComparison.BreakdownOf |
