# behavioral-safegraph ETL, modelled in Dafny

The repository turns SafeGraph weekly-pattern downloads into one table for analysis.

- **`src/etl/etl_unpack_json.py`** does the unpacking:
  - `batch_dirs` cuts the sorted list of week directories into batches.
  - `transform_dataframe` parses each directory name (`<start>through<end>`) and loads every JSON file of the directory. A file whose load fails is skipped and its name recorded in `bad_files`.
  - From the loaded DataFrame it then extracts:
    - seven `day_i_visits` columns;
    - the raw visitor and visit counts;
    - the median dwell;
    - seven dwell-time bucket columns (through `getValues`).
  - Finally it writes the batch table and the pickled bad-file list.
- **`src/etl/safegraph_etl.py`** is a second version of the same unpacker. It has `extract_from_json`, `parse_visits` and `parse_dwell`, and it runs the extraction once per file, inside the file loop.
- **`src/etl/etl_cluster_dataframe.py`** does the combining and cleaning:
  - `print_bad_files` flattens the pickled lists.
  - `combine_batch_csv` concatenates the batch tables.
  - `clean_df` drops rows without a visitor count, removes density and dwell outliers, keeps the weeks inside 2019, and groups the rest by NAICS code or by place.

## Modules

| file | module | what it holds |
|---|---|---|
| `wrappers.dfy` | `Wrappers` | `Option`, `Result` and the Python exceptions the scripts can raise. |
| `seqs.dfy` | `Seqs` | Flattening a list of lists and filtering, with their laws. |
| `strings.dfy` | `Strings` | Python's string order; `list.sort` (insertion sort); removing duplicates; `str.split` and its inverse `join`. |
| `dates.dfy` | `Dates` | `datetime.strptime(s, '%Y-%m-%d')` and its inverse. |
| `json.dfy` | `Json` | Documents as `json.load` returns them; dict subscripting; pandas' `.str[...]` element access on an object column. |
| `frames.dfy` | `Frames` | DataFrames as lists of rows. |
| `runs.dfy` | `Runs` | What both unpackers share around their file loop: the load and the extraction as a `Pipeline`, and the `bad_files` list. |
| `unpack.dfy` | `UnpackJson` | `transform_dataframe` of the first unpacker, as written: a pure definition, the loop-by-loop methods proved equal to it, and what it computes. |
| `batching.dfy` | `Batching` | `batch_dirs`. |
| `safegraph.dfy` | `SafegraphEtl` | `transform_dataframe` of the second unpacker, in the same form, and its comparison with the first. |
| `cluster.dfy` | `ClusterDataframe` | `print_bad_files`, `combine_batch_csv` and `clean_df`. |
| `samples.dfy` | `Samples` | One downloaded place taken through loading, extraction and both unpackers' loops, next to a file that does not parse. |

`frames.dfy` covers these pandas operations:

- `json_normalize` on the `edges` records;
- column selection with `.loc`;
- column assignment;
- `parse_visits`, `parse_dwell` and `getValues`;
- `drop`;
- the output paths.

A DataFrame is a sequence of rows. Each row maps column names to cells, and a column a row lacks reads as NaN. A cell is `NaN` or a JSON value; Python's `None` is `Val(JNull)`. Cells are taken one at a time, so the conversions pandas applies to a whole column are not modelled (see Left out).

The loops of both unpackers are written as methods (`LoadDirectory`, `ProcessDirectory`, `ProcessFiles`, `TransformDataframe`). Each method is proved equal to a recursive definition of the run. The lemmas then say what that run computes:

- which files are recorded as bad;
- which rows end up in `weekly_df`;
- which inputs make it raise.

The first raise ends the run. For the second unpacker, that includes an extraction error, because only the load sits inside its `try`.

## Model

| member | source | states |
|---|---|---|
| `Json.LookupSpec` | src/etl/etl_unpack_json.py:39-40 | A key is found exactly when some entry has it, and the value found is that of the key's last entry: `json.load` keeps the last of duplicate keys. |
| `Json.Subscript` | src/etl/etl_unpack_json.py:40 | `doc[k]` succeeds exactly on an object holding `k`, and gives the value `json.load` kept for it. |
| `Json.StrGet` | src/etl/etl_unpack_json.py:61 | `.str[key]` passes missing values through: NaN gives NaN and `None` gives `None`. On an object, it gives the value or `None` when the key is absent. On a list, it gives the element at a position, counted from the end when negative, and NaN when out of range. |
| `Json.DictValuesSpec` | src/etl/etl_unpack_json.py:48 | `dict.values()` of a parsed object has one value per distinct key, no key twice, in the order of each key's first entry, and each value is the one `json.load` kept for that key (its last entry). |
| `Json.DistinctKeysValues` | src/etl/etl_unpack_json.py:48 | When no key repeats, `dict.values()` lists the entries' values in the order written. |
| `Dates.ParseDate` | src/etl/etl_unpack_json.py:32-33 | An accepted string is a real calendar date, leap years included. Every rejection is a ValueError. |
| `Dates.FormatParse` | src/etl/etl_unpack_json.py:32-33 | Parsing the zero-padded `YYYY-MM-DD` form of any valid date gives the date back. |
| `Strings.Sort` | src/etl/etl_unpack_json.py:15-16 | `week_dirs.sort()` returns a list in ascending string order that is a permutation of the listing. |
| `Strings.SortedUnique` | src/etl/etl_unpack_json.py:16 | Two sorted permutations of the same names are equal, so the batches do not depend on the order `os.listdir` returns. |
| `Strings.JoinSplit` | src/etl/etl_unpack_json.py:31 | Joining the parts of `str.split(s, sep)` with `sep` gives back `s`. |
| `Strings.SplitAround` | src/etl/etl_unpack_json.py:31 | For a separator whose first character does not recur in it (as with `through`), two parts that do not contain the separator, joined by it, split into exactly those two parts. |
| `Strings.NoOccurrence` | src/etl/etl_unpack_json.py:31 | A string that lacks the separator's first character holds no occurrence of the separator, so a date string cannot contain `through`. |
| `Strings.DedupSorted` | src/etl/etl_cluster_dataframe.py:67 | Removing repeats from a sorted list gives a strictly ascending list with the same members. |
| `Batching.BatchDirs` | src/etl/etl_unpack_json.py:12-21 | A zero batch size raises ValueError (`range` with step 0). A negative one gives no batches. A positive one gives the consecutive slices of the sorted listing. |
| `Batching.ChunksFlatten` | src/etl/etl_unpack_json.py:18-20 | Concatenating the batches gives back the sorted listing: no directory is lost, repeated or reordered. |
| `Batching.ChunksSizes` | src/etl/etl_unpack_json.py:18-20 | Every batch but the last holds exactly `batchsize` directories; the last is non-empty and holds at most that many. |
| `Batching.ChunksCount` | src/etl/etl_unpack_json.py:18 | There are ceil(N / batchsize) batches, and none exactly when the root is empty. |
| `Batching.BatchesSorted` | src/etl/etl_unpack_json.py:15-20 | The batches, read in order, are ascending and hold each listed directory once per occurrence. |
| `Frames.DayColumnsDistinct` | src/etl/etl_unpack_json.py:60-62 | The seven `day_{i}_visits` names are distinct, and none of them is the patterns column, a raw count or the median dwell. |
| `Frames.BucketColumnsDistinct` | src/etl/etl_unpack_json.py:71 | The seven bucket names are distinct, and none of them is a day column, the patterns column, a raw count or the median dwell. |
| `Frames.AssignKeys` | src/etl/etl_unpack_json.py:62 | Assigning the first n of a list of columns gives a row whose columns are the old ones plus those n. |
| `Frames.AssignAt` | src/etl/etl_unpack_json.py:74 | With distinct column names, every assigned column holds its own value. |
| `Frames.AssignOther` | src/etl/etl_unpack_json.py:74 | A column outside the assigned list keeps its old value. |
| `Frames.FlatRecordKeys` | src/etl/etl_unpack_json.py:40 | `json_normalize` of a record without nested objects has exactly one column per key, named with the prefix. |
| `Frames.FlatRecordValue` | src/etl/etl_unpack_json.py:40 | Each column holds the value of the key's last entry. |
| `Frames.FlattenAgreesWithLookup` | src/etl/etl_unpack_json.py:40 | A normalized column exists exactly when the record holds the key, and holds what `dict` lookup gives. |
| `Frames.ColumnOfKey` | src/etl/etl_unpack_json.py:40 | In a nested record with dot-free keys, the column named by the prefix and a key exists exactly when the dict's value for that key exists and is not a dict, and it holds that value. |
| `Frames.ColumnUnderKey` | src/etl/etl_unpack_json.py:40 | A column under a key's dotted name exists exactly when the dict's value for the key is a dict whose own flattening has that column, with the same value. |
| `Frames.NestedColumn` | src/etl/etl_unpack_json.py:40 | A two-level column such as `node.placekey` exists exactly when `d[k1]` is a dict whose `get(k2)` is a non-dict value, and it holds that value. |
| `Frames.TopLevelSplit` | src/etl/etl_unpack_json.py:40 | With dot-free keys, flattening a record entry by entry equals `json_normalize`'s top-level merge: the non-dict entries first, the nested dicts' columns over them. |
| `Frames.NormalizeDotFree` | src/etl/etl_unpack_json.py:40 | So a record with dot-free keys normalizes to its entry-by-entry flattening, which the column lemmas above describe. |
| `Frames.DottedKeyCollision` | src/etl/etl_unpack_json.py:40 | `{"node": {"placekey": a}, "node.placekey": b}` normalizes to `a` in the `node.placekey` column: the nested column wins over a literal dotted key at the top level, although the later entry wins below it. |
| `Frames.SelectColumns` | src/etl/etl_unpack_json.py:53-59 | `df.loc[:, cols]` raises KeyError unless every wanted column occurs in the frame. Otherwise it keeps every row, each with exactly the wanted columns and its own values. |
| `Frames.DayVisitsReads` | src/etl/etl_unpack_json.py:61 | When the row's patterns hold a `visits_by_day` list whose i-th entry has `visits`, that value is the day-i cell. |
| `Frames.DayVisitsMissing` | src/etl/etl_unpack_json.py:61-64 | A row with no patterns, or an empty list of them, gets NaN in every day column, in both raw counts and in the median dwell. |
| `Frames.VisitsRowSpec` | src/etl/etl_unpack_json.py:60-66 | After the visit columns are added, a row has its old columns plus the seven day columns and the two raw counts, each holding the value read from the patterns. Every other column is unchanged. |
| `Frames.WithDaysKeepsPatterns` | src/etl/etl_unpack_json.py:60-62 | Assigning day columns never disturbs the patterns column that later iterations read. |
| `Frames.ParseVisits` | src/etl/safegraph_etl.py:14-22 | `parse_visits`, as its loop over the seven days (each pass assigning one day column in every row), keeps the row count. Every row gains the seven day columns and the two raw counts, and day j holds the row's visits on day j. Every other column is unchanged. |
| `Frames.GetValues` | src/etl/etl_unpack_json.py:46-50 | `None` gives seven NaN. A dict gives `list(arr.values())`: one value per distinct key, in the order of the key's first entry, holding the value kept for that key. Anything else (NaN, a list, a number) raises AttributeError. |
| `Frames.BucketLists` | src/etl/etl_unpack_json.py:72-73 | `.apply(getValues).values.tolist()` succeeds exactly when `getValues` succeeds on every row, and then lists each row's values. Otherwise it raises AttributeError. |
| `Frames.BucketBlock` | src/etl/etl_unpack_json.py:74 | The seven-column DataFrame built from the lists exists exactly when the longest list has seven entries (ValueError otherwise). Shorter rows are padded with NaN. |
| `Frames.ParseDwell` | src/etl/safegraph_etl.py:25-32 | `parse_dwell` succeeds exactly when `getValues` succeeds on every row and, unless the frame is empty, the longest value list has seven entries. Otherwise it raises AttributeError or ValueError, as above. On success every row gains the median dwell and the seven buckets, read in dict order and padded with NaN, and keeps every other column. |
| `Frames.DwellRowSpec` | src/etl/etl_unpack_json.py:69-74 | One row after the dwell step has its old columns plus the median dwell and the buckets, with their values. Every other column is unchanged. |
| `Frames.DwellFrameSpec` | src/etl/etl_unpack_json.py:69-74 | The dwell step, row by row, has that same content. |
| `Frames.DropColumn` | src/etl/etl_unpack_json.py:76 | Dropping the patterns column removes exactly that column from every row and changes nothing else. |
| `Frames.ExtractRowsSpec` | src/etl/etl_unpack_json.py:53-76 | A successful extraction keeps the row count. Output row i has exactly the selected columns (minus the patterns) plus the visit and dwell columns, all read from loaded row i: the day visits, the identifying values, both raw counts and the median dwell of its first weekly pattern, and its `getValues` bucket values by position, padded with NaN. |
| `Frames.ExtractRowsOk` | src/etl/etl_unpack_json.py:53-74 | The extraction succeeds exactly when every wanted column occurs, every row's bucket value is None or a dict, and the frame is empty or its longest bucket list has seven entries. A missing column raises KeyError, a bad bucket value AttributeError, and a wrong bucket count ValueError. |
| `Frames.NullPatternsExtract` | src/etl/etl_unpack_json.py:46-74 | A frame whose every `weekly_patterns` value is `None` extracts without error, one row per loaded row, with `None` in the day columns and the median dwell and NaN in all seven buckets. |
| `Frames.ExtractedPatterns` | src/etl/etl_unpack_json.py:63-74 | One extracted row's raw counts, median dwell and buckets are read from the loaded row's first weekly pattern. |
| `Frames.ExtractedColumns` | src/etl/etl_unpack_json.py:53-76 | One extracted row has exactly the output columns. |
| `Frames.ExtractedDays` | src/etl/etl_unpack_json.py:60-62 | One extracted row's day columns hold the loaded row's visits. |
| `Frames.ExtractedKept` | src/etl/etl_unpack_json.py:53-59 | One extracted row's identifying columns hold the loaded row's values. |
| `Frames.WriteBatch` | src/etl/etl_unpack_json.py:80-85 | An empty batch raises IndexError (`dirs[0]`). Otherwise the table and the bad-file list are written, unchanged, to `<out>/<first>_<last>.csv` and `<out>/<first>_<last>_bad_files.pickle`. |
| `Frames.Extract` | src/etl/safegraph_etl.py:56-63 | The statement-by-statement extraction computes `ExtractRows`. |
| `Runs.FailedNamesSpec` | src/etl/etl_unpack_json.py:41-44 | The names appended to `bad_files` are those of exactly the files whose load raises, once each, in visiting order. |
| `Runs.FailedNamesAppend` | src/etl/etl_unpack_json.py:41-44 | The bad files of two runs of files in a row are those of the first followed by those of the second. |
| `Runs.FailedNamesNone` | src/etl/etl_unpack_json.py:41-44 | Files that all load record nothing. |
| `Runs.AllFilesAppend` | src/etl/etl_unpack_json.py:30-36 | The files visited over two lists of directories are those of the first followed by those of the second. |
| `UnpackJson.ParseDirNameSpec` | src/etl/etl_unpack_json.py:31-33 | A directory name is accepted exactly when it splits around `through` into two parts that both parse as dates. It then is those parts joined by `through`, and gives two valid dates. Every rejection is a ValueError. |
| `UnpackJson.DirNameRoundTrip` | src/etl/etl_unpack_json.py:31-33 | `<start>through<end>`, with zero-padded dates, gives back the two dates. |
| `UnpackJson.LastLoadedNone` | src/etl/etl_unpack_json.py:36-44 | When every file of a directory fails to load, `df` keeps the value it had before the directory. |
| `UnpackJson.LastLoadedAt` | src/etl/etl_unpack_json.py:36-44 | Otherwise `df` is the frame of the last file that loaded. |
| `UnpackJson.LastLoadedAppend` | src/etl/etl_unpack_json.py:36-44 | Visiting two lists of files in a row carries `df` from the first to the second. |
| `UnpackJson.RunDirsErr` | src/etl/etl_unpack_json.py:30-78 | Once a pass of the directory loop raises, the run's result is that error. |
| `UnpackJson.LoadDirectory` | src/etl/etl_unpack_json.py:36-44 | The file loop appends the failing files' names to `bad_files`, and leaves `df` as the last frame loaded. |
| `UnpackJson.ProcessDirectory` | src/etl/etl_unpack_json.py:30-78 | One pass of the directory loop computes `DirStep`. |
| `UnpackJson.TransformDataframe` | src/etl/etl_unpack_json.py:24-85 | The loops compute `Transform`: the directory run followed by the writes. |
| `UnpackJson.DirBlocks` | src/etl/etl_unpack_json.py:78 | One block of rows per directory. |
| `UnpackJson.DirBlocksAt` | src/etl/etl_unpack_json.py:78 | Directory j contributes the rows extracted from the last frame loaded up to and including it. |
| `UnpackJson.DirStepOk` | src/etl/etl_unpack_json.py:30-78 | A pass that succeeds had a well-formed, listed directory. Its bad files grew by that directory's failures, and `df` is the last frame loaded. That frame's extraction succeeded and its rows were appended. |
| `UnpackJson.RunDirsBadFiles` | src/etl/etl_unpack_json.py:27-44 | A completed run records exactly the failing files of all directories, in visiting order. |
| `UnpackJson.RunDirsFrame` | src/etl/etl_unpack_json.py:36-53 | After a completed run, `df` is the last frame loaded over all directories, and it exists whenever some directory was processed. |
| `UnpackJson.RunDirsWeekly` | src/etl/etl_unpack_json.py:78 | A completed run's `weekly_df` is the directories' blocks, concatenated in order. |
| `UnpackJson.RunDirsPrefixOk` | src/etl/etl_unpack_json.py:30 | If a run completes, so does every prefix of it. |
| `UnpackJson.RunDirsListed` | src/etl/etl_unpack_json.py:31-35 | In a completed run, every directory name parsed and every directory existed. |
| `UnpackJson.NothingLoadedFails` | src/etl/etl_unpack_json.py:46-53 | When no file of the first directory loads, `df` is unbound at the extraction and the run raises NameError. |
| `UnpackJson.BadDirNameFails` | src/etl/etl_unpack_json.py:31-33 | A malformed directory name after successful passes ends the run with ValueError. |
| `UnpackJson.LastFileOnly` | src/etl/etl_unpack_json.py:36-78 | A directory's block holds only the rows of its last loadable file. |
| `UnpackJson.StaleFrameRepeats` | src/etl/etl_unpack_json.py:36-78 | A directory none of whose files loads repeats the previous directory's block. |
| `SafegraphEtl.RunFilesErr` | src/etl/safegraph_etl.py:40-65 | Once a file's extraction raises, the file loop's result is that error. |
| `SafegraphEtl.ProcessFiles` | src/etl/safegraph_etl.py:40-65 | The file loop, with its early exit, computes `RunFiles`. |
| `SafegraphEtl.RunDirsErr` | src/etl/safegraph_etl.py:38-65 | Once a directory's pass raises, the run's result is that error. |
| `SafegraphEtl.TransformDataframe` | src/etl/safegraph_etl.py:34-74 | The loops compute `Transform`. |
| `SafegraphEtl.FileStepOk` | src/etl/safegraph_etl.py:42-65 | A file whose extraction does not raise either is recorded as bad (when its load fails) or appends its own rows. |
| `SafegraphEtl.RunFilesOk` | src/etl/safegraph_etl.py:40-65 | Over files none of which crashes, the loop records exactly the failing files and appends every file's rows, in order. |
| `SafegraphEtl.RunFilesCrash` | src/etl/safegraph_etl.py:57-63 | The first file that loads but whose extraction raises ends the loop with that error. |
| `SafegraphEtl.RunFilesOkIff` | src/etl/safegraph_etl.py:40-65 | The file loop completes exactly when no file crashes. |
| `SafegraphEtl.DirStepSpec` | src/etl/safegraph_etl.py:39-65 | A directory's pass completes exactly when it exists and none of its files crashes, and then adds its failures and its rows. |
| `SafegraphEtl.RunDirsOkIff` | src/etl/safegraph_etl.py:38-65 | The run completes exactly when every directory exists and no file of any of them crashes. |
| `SafegraphEtl.RunDirsSpec` | src/etl/safegraph_etl.py:35-65 | A completed run holds the failing files of all directories and every file's rows, concatenated in visiting order. |
| `SafegraphEtl.RunDirsBlocks` | src/etl/safegraph_etl.py:65 | Every visited file's rows appear in `weekly_df` as one block, at the offset of the files before it. |
| `SafegraphEtl.UnpackTwoFiles` | src/etl/etl_unpack_json.py:36-78 | With two loadable files in a directory, the first unpacker keeps only the second file's rows. |
| `SafegraphEtl.EveryFileTwoFiles` | src/etl/safegraph_etl.py:40-65 | With the same two files, the second unpacker keeps the rows of both, in order. |
| `SafegraphEtl.LastFileVsEveryFile` | src/etl/safegraph_etl.py:40-65 | The two unpackers on that same directory, side by side. |
| `SafegraphEtl.AsWrittenDropsEverything` | src/etl/safegraph_etl.py:8-11 | With `extract_from_json` as written, every file is recorded as bad and no row is produced. |
| `SafegraphEtl.AsWrittenExtractNeverSucceeds` | src/etl/safegraph_etl.py:25-29 | With `parse_dwell` as written, a run completes only when no file loads at all. |
| `SafegraphEtl.IntendedRun` | src/etl/safegraph_etl.py:8-65 | With the document read as intended, the bad files are exactly those `extract_from_json` rejects, and every other file's rows are kept, in order. |
| `Samples.DocLoads` | src/etl/etl_unpack_json.py:39-40 | A downloaded file with one place under `data.search.places.results.edges` loads into one row, the place's record flattened. |
| `Samples.LoadedExtracts` | src/etl/etl_unpack_json.py:53-76 | With seven dwell buckets, the extraction of that row, with either unpacker's columns, succeeds and gives one row. |
| `Samples.GoodThenBadFile` | src/etl/safegraph_etl.py:40-65 | A directory with a file that loads and extracts, then a file that does not load: the second unpacker records the second file's name and keeps exactly the first file's rows. |
| `Samples.UnpackGoodThenBadFile` | src/etl/etl_unpack_json.py:30-78 | The first unpacker over the same directory records the second file, leaves `df` as the first file's frame, and keeps that frame's rows. |
| `Samples.OneGoodOneBadFile` | src/etl/safegraph_etl.py:40-65 | The second unpacker over the downloaded place and an unparsable file gives one row and one bad-file name. |
| `Samples.UnpackOneGoodOneBadFile` | src/etl/etl_unpack_json.py:30-78 | The first unpacker over the same directory, with a parseable name, gives one row and one bad-file name. |
| `Samples.PlaceAndTruncatedFile` | src/etl/safegraph_etl.py:38-65 | For a concrete place and `truncated.json`, the one bad name is `truncated.json`, and the one row holds the placekey, the first and last day visits, the median dwell and the first bucket, without the patterns column. |
| `Samples.UnpackPlaceAndTruncatedFile` | src/etl/etl_unpack_json.py:30-78 | In any week directory named by two valid dates, the first unpacker gives the same single bad name and one row holding the placekey, the place's name and the median dwell. |
| `ClusterDataframe.PrintBadFiles` | src/etl/etl_cluster_dataframe.py:11-19 | The gathered list is the loaded lists concatenated, in file order. |
| `ClusterDataframe.BadFilesSpec` | src/etl/etl_cluster_dataframe.py:19 | A name is gathered exactly when some list holds it, and the length is the sum of the lengths. |
| `ClusterDataframe.CombineBatchCsv` | src/etl/etl_cluster_dataframe.py:23-36 | No files raise ValueError (nothing to concatenate). Otherwise the result is the tables concatenated in order, with the summed row count. |
| `ClusterDataframe.CombinedBlocks` | src/etl/etl_cluster_dataframe.py:34 | Every table's rows appear in the combined table as one block. |
| `ClusterDataframe.DensityBelow` | src/etl/etl_cluster_dataframe.py:51-54 | The density test passes exactly when both values are present and the quotient is below the cutoff. For a zero area, the quotient is an infinity or NaN, and only a negative count passes. |
| `ClusterDataframe.In2019Days` | src/etl/etl_cluster_dataframe.py:59 | For a real date, the window is the year 2019 without its first and last days. |
| `ClusterDataframe.WindowEndpoints` | src/etl/etl_cluster_dataframe.py:59 | Weeks starting 2019-01-01 or 2019-12-31 are dropped; 2019-01-02 is kept. |
| `ClusterDataframe.CleanRowsIsFilter` | src/etl/etl_cluster_dataframe.py:43-59 | The three successive filters are one filter by all three tests. |
| `ClusterDataframe.CleanRowsMember` | src/etl/etl_cluster_dataframe.py:43-59 | A row survives exactly when it has a visitor count, a median dwell below the dwell cutoff, a density below the density cutoff and a start strictly inside the 2019 window. |
| `ClusterDataframe.CleanRowsSubseq` | src/etl/etl_cluster_dataframe.py:43-59 | Cleaning only removes rows and keeps the table's order. |
| `ClusterDataframe.CleanRowsIdempotent` | src/etl/etl_cluster_dataframe.py:43-59 | Cleaning a cleaned table changes nothing. |
| `ClusterDataframe.GroupKeysSpec` | src/etl/etl_cluster_dataframe.py:66-71 | The group keys are strictly ascending, and a key occurs exactly when some row carries it. |
| `ClusterDataframe.GroupBySpec` | src/etl/etl_cluster_dataframe.py:66-71 | Every group is non-empty and holds exactly the rows with its key, and no two groups share a key. |
| `ClusterDataframe.GroupByCovers` | src/etl/etl_cluster_dataframe.py:66-71 | Every row is in the group of its key and in no other. |
| `ClusterDataframe.CleanDfSpec` | src/etl/etl_cluster_dataframe.py:39-71 | A row is in some group of the result exactly when it is in the input and passes all three tests. |

## Left out

- Files and the file system:
  - Reading and writing files, `os.listdir`, `glob`, `open`, `pickle` and `to_csv` are outside the model.
  - A directory listing is a map from directory name to the files it holds, in the order `os.listdir` gives them. `glob` order is the order of the input sequence.
  - A file that cannot be opened is not modelled.
  - The batch output is a value naming its two paths.
- `json.load` text parsing: a file is either unparsable text or a parsed document.
- pandas version: the model follows pandas 1.3 to 1.5. There `json_normalize` merges a record's top level as `Frames.NormalizeRecord` does, and `groupby(key)['log_density', 'log_median_dwell']` in `src/etl/etl_cluster_dataframe.py` (lines 67 and 69) is deprecated but still accepted as a list of two columns. From pandas 2.0 on, that tuple subscript raises ValueError on every input, so `clean_df` never returns; `ClusterDataframe.CleanDfSpec`, `ClusterDataframe.GroupBySpec`, `ClusterDataframe.GroupByCovers` and `ClusterDataframe.GroupKeysSpec` describe the 1.x behaviour only.
- `Frames.Normalize`: follows `json_normalize` as pandas 1.3 to 1.5 run it: a scalar item of the edges list gives an empty row. A list item is taken to raise, and the exact exception types for malformed edges are not modelled.
- `Frames.FlattenRecord`: a key that a record repeats keeps its last value, as the dict `json.load` builds does. The position of its column follows that last entry rather than the dict's first insertion; rows are maps, so column order is not modelled anyway. That position also decides which value wins when the repeated key's columns collide with another entry's columns. In `{"x": {"y": 1}, "x.y": 2, "x": {"y": 3}}` nested under `n`, pandas visits `x` first (holding `{"y": 3}`) and then `x.y`, so `n.x.y` is 2, while the model visits `x` after `x.y` and gives 3. Below the top level, when a literal dotted key and a nested dict give the same column name, the later entry wins; the top-level rule (nested columns win) is `Frames.NormalizeRecord`'s.
- Whole-column conversions: pandas infers a column's type from all its cells, so a result column holding numbers and `None` (a day column where some rows have no patterns) becomes float with NaN, and `pd.DataFrame` pads short bucket lists with `None` where the model pads with NaN. The model keeps `None` and NaN apart cell by cell; `to_csv` writes both as an empty field.
- `Dates.ParseDate`: accepts ASCII digits only. `strptime`'s `%Y`, `%m` and `%d` also accept other Unicode decimal digits, which the model rejects.
- `Json.StrGet`: the `.str` accessor on a column that holds no strings or objects at all (pandas refuses such a column outright) is not modelled. Type errors inside `.str[...]` give NaN.
- `clean_df` line 46, `astype(int).astype(str)` on the NAICS code: the code arrives as a string, and the `Counter` print on lines 47-48 is left out.
- `clean_df` lines 57-58: `start` arrives as a parsed date or as missing. The parse error of `to_datetime` and the `end` column, which is never read afterwards, are left out.
- Floating point:
  - Densities and dwell times are exact reals. A zero area gives an infinity or NaN, as IEEE division does.
  - The logarithms (lines 62-63) and the per-group means (lines 67-69) are left out, so a group is its key and its rows.
  - Rows whose group key is missing are not modelled.
- `argparse`, `tqdm`, `print` and the `__main__` blocks are left out.
- Undefined names in `src/etl/safegraph_etl.py`:
  - `root` (line 39) and `dirs` (line 67) are taken to be the data root and `in_dirs`.
  - `pickle` is taken to be imported.
  - The undefined `a` (line 10) and the `getValues` that `parse_dwell` cannot see (line 29) are modelled both as written and as intended (see Findings). The rest of the model uses the intended `Safegraph` pipeline.
- The run models of both unpackers take the extraction as the `extract` part of a `Pipeline`. The scripts' pipelines (`UnpackJson.Unpack`, `SafegraphEtl.Safegraph`) plug in `Frames.ExtractRows`, which `Frames.Extract` computes statement by statement.
- `read_csv` with `index_col=0`, the index that `pd.concat` carries along, and the alignment of columns between batches with different columns are not modelled. A batch table is a sequence of typed rows with the columns `clean_df` reads.
- `Batching.BatchDirs`: the loop advances to `min(i + batchsize, n)` rather than `i + batchsize`. The two visit the same slices.
- `Batching.ChunksCount` characterises the number of batches as the least multiple count that covers the listing (ceiling division), rather than as `(n + b - 1) / b`.

## Findings

| source | as written | input that shows it | evidently intended | confidence | as-written member | corrected member |
|---|---|---|---|---|---|---|
| src/etl/etl_unpack_json.py:46-78 | The extraction and `pd.concat` are indented under the directory loop, not the file loop, so they run once per directory on whichever frame was loaded last. | A directory with two loadable files keeps only the second file's rows. A later directory whose files all fail to load appends the previous directory's rows again. A first directory with no loadable file raises NameError. | Every loaded file contributes its own rows, as the file loop of `src/etl/safegraph_etl.py` does. | not executed | `UnpackJson.LastFileOnly`, `UnpackJson.StaleFrameRepeats`, `SafegraphEtl.UnpackTwoFiles` | `SafegraphEtl.RunDirsSpec`, `SafegraphEtl.EveryFileTwoFiles` |
| src/etl/safegraph_etl.py:9-10 | The document is bound to `j`, but `a['data']` is read, which raises NameError inside the bare `except`. | Any run: every file is recorded as bad and `weekly_df` stays empty. | Read `j['data']['search']['places']['results']['edges']`. | not executed | `SafegraphEtl.AsWrittenDropsEverything` | `SafegraphEtl.IntendedRun` |
| src/etl/safegraph_etl.py:29 | `parse_dwell` applies `getValues`, which exists only as a local of `transform_dataframe`, so the lookup raises NameError outside the `try`. | Any file that loads and has the selected columns ends the run with NameError. | `getValues` defined at module level, next to `parse_dwell`. | not executed | `SafegraphEtl.AsWrittenExtractNeverSucceeds` | `SafegraphEtl.IntendedRun` |

The intent in the first row rests on `src/etl/safegraph_etl.py:40-65`, where the extraction and the concatenation sit inside the file loop. `UnpackJson` follows the code of the first unpacker as written, and the first row records the difference.
