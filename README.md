# Garmin FIT / Apple Health loaders — a verified Dafny model

This project models the data-handling core of a small set of Python scripts. The
scripts read Garmin `.fit` activity files and an Apple Health export and load them into
Elasticsearch. The model covers four parts:

- **Zones** (`zones.py`). The heart-rate ladder (five zones, cuts 120/140/160/180) and
  the power ladder (seven zones, cuts 120/134/168/193/210/238). Also `clean_nan`, which
  rebuilds a flat dict with NaN floats replaced by `None`.
- **Daily health summary** (`scripts/parse_apple_hr.py`, `parse_health_export`). A
  first loop files each `Record`'s value under its calendar date and one of five
  categories. A second loop turns each date's lists into an aggregate dict, and keeps
  only dates whose aggregate is non-empty.
- **Bulk loader** (`scripts/es_bulk_loader.py`). `generate_actions` builds one
  Elasticsearch action per record of each `.fit` file. The document id is
  `<session>-<i>`. The document is a copy of the record with `session_id` set, the
  session metrics merged over it, and datetimes turned into ISO strings. The counting
  loop of `bulk_load` tallies the `(success, info)` stream and writes one failure-log
  line per failed item. `main` exits with status 1 when some document failed to index;
file-level failures are logged but do not change the exit status.
- **Simple loader** (`scripts/load_fit_to_es.py`). `get_folder_path` picks the data
  folder: CLI, then environment, then default. `load_to_es` empties the `fit-data`
  index, stores every record under `<file name>-<i>` and counts what it stored.

Modules: `Wrappers` (Option, Result), `Text` (digits, `str(int)`, `endswith`,
`os.path.splitext`, `Path.stem`), `Values` (the Python values in a record, and
`datetime.isoformat`), `Documents` (document assembly and ids shared by both loaders),
`Zones`, `HealthExport`, `BulkLoader`, `SimpleLoader`.

Each loop of the source is a method with a `while` loop. `GroupRecords`,
`SummarizeDays`, `ConvertDatetimes`, `GenerateActions`, `BuildSessionActions`,
`CountOutcomes` and `LoadToEs` are proved equal to a specification function. `CleanNan`
has no specification function: its contract states the properties directly (same keys,
NaN replaced by `None`, every other value unchanged). The Elasticsearch index of the
simple loader is a class whose `docs` map starts with whatever the server already holds,
is emptied by `Recreate` and is updated by `Index`. The properties are lemmas about the
specification functions.

Collaborators the model cannot see are parameters:
- `parse_fit_file` and `compute_session_metrics` form a `Decoder`. Its `Failure` stands
  for a raised exception.
- The date and number parsers of the health export form `Parsers`. `None` stands for
  the `ValueError` the loop catches.
- `round(x, 1)` is a function `real -> real`.
- `helpers.streaming_bulk` is a function from the actions to the outcome stream.
- The directory listing is a sequence of names. For the bulk loader, `None` means the
  path is not a directory.

Three facts about the code shape the model:
- The zone ladders have no out-of-range case. Every reading below 120 is "Zone 1",
  negative readings included (`zones.py:19-20`, `zones.py:34-35`). Every reading at or
  above the top cut is the top zone (`zones.py:27-28`, `zones.py:46-47`).
- `main` exits with status 1 whenever the failure count is positive
  (`scripts/es_bulk_loader.py:340-341`, `ExitStatus`). Only documents rejected by the
  bulk helper raise that count; a `.fit` file that cannot be read is logged and skipped
  (`scripts/es_bulk_loader.py:129-131`) and leaves the status at 0
  (`AllFilesFailExitZero`).
- The module docstring of `scripts/es_bulk_loader.py` (line 6) mentions retry and
  backoff. In the code, retries, backoff and chunking are all options passed to
  `helpers.streaming_bulk` (`scripts/es_bulk_loader.py:165-174`), which is not part of
  this model.

## Model

| member | source | states |
|---|---|---|
| Zones.HeartRateZone | zones.py:15-28 | `None` gives `None`; any other reading gives one of "Zone 1".."Zone 5", never `None` |
| Zones.PowerZone | zones.py:30-47 | `None` gives `None`; any other reading gives one of "Zone 1".."Zone 7", never `None` |
| Zones.Below | zones.py:19-45 | Python's `<` on a float: true for −∞ and for finite readings below the bound, false for +∞ and for NaN, so NaN fails every test of the ladders |
| Zones.CountAtMost | zones.py:19-28 | the reference zone index: the number of cuts at or below the reading, at most the number of cuts |
| Zones.HeartRateZoneByCuts | zones.py:19-28 | for every finite heart rate, the ladder returns zone 1 + the number of cuts at or below it |
| Zones.PowerZoneByCuts | zones.py:34-47 | for every finite power, the ladder returns zone 1 + the number of cuts at or below it |
| Zones.HeartRateZoneBounds | zones.py:19-28 | a heart rate is in zone n exactly when it lies in `[cut n-1, cut n)`: lower bounds inclusive, upper bounds exclusive |
| Zones.PowerZoneBounds | zones.py:34-47 | a power is in zone n exactly when it lies in `[cut n-1, cut n)` |
| Zones.HeartRateZoneMonotone | zones.py:19-28 | for finite readings a <= b, the heart-rate zone number of a is at most that of b |
| Zones.PowerZoneMonotone | zones.py:34-47 | for finite readings a <= b, the power zone number of a is at most that of b |
| Zones.CountAtMostMonotone | zones.py:19-28 | the reference zone index never decreases as the reading grows |
| Zones.CountAtMostInZone | zones.py:19-28 | for increasing cuts, index n - 1 holds exactly for readings in the n-th interval |
| Zones.CountAtMostZero | zones.py:19-20 | a reading below the first cut has no cut at or below it (Zone 1) |
| Zones.ZoneBoundaries | zones.py:19-27 | hr 119 → Zone 1, 120 → Zone 2, 179 → Zone 4, 180 → Zone 5, -5 → Zone 1; power 237 → Zone 6, 238 → Zone 7, -5 → Zone 1 |
| Zones.ZoneNames | zones.py:20-47 | the zone names are the literal strings "Zone 1".."Zone 7" |
| Zones.ZoneNameInjective | zones.py:20-47 | different zone numbers have different names |
| Zones.NaNReadingGetsTopZone | zones.py:19-28 | as written, a NaN heart rate gets "Zone 5" and a NaN power gets "Zone 7" |
| Zones.HeartRateZoneOfReading | zones.py:15-28 | no zone exactly when the reading is missing or NaN; otherwise the ladder's zone |
| Zones.PowerZoneOfReading | zones.py:30-47 | no zone exactly when the reading is missing or NaN; otherwise the ladder's zone |
| Zones.CleanNan | zones.py:5-13 | same keys as the input; NaN floats become `None`; every other value is unchanged; no NaN remains |
| HealthExport.CategoryOf | scripts/parse_apple_hr.py:66-75 | a type name maps to the category whose `HKQuantityTypeIdentifier...` name it is; a name that is none of the five maps to no category |
| HealthExport.Contribution | scripts/parse_apple_hr.py:51-75 | a record contributes only when its three attributes are present and non-empty, its date and value parse and its type is one of the five; it then carries the parsed date, the parsed value and the type's category |
| HealthExport.ContributionCases | scripts/parse_apple_hr.py:51-77 | a record with a missing or empty attribute, an unparsable date or value, or an unknown type contributes nothing; otherwise it files its parsed value under its parsed date and its category |
| HealthExport.Append | scripts/parse_apple_hr.py:66-75 | appending a reading extends only its own category's list, by exactly that value |
| HealthExport.GroupRecords | scripts/parse_apple_hr.py:41-77 | the grouping loop builds `daily_data` as the fold of the records |
| HealthExport.GroupIsFilter | scripts/parse_apple_hr.py:41-77 | a date gets an entry exactly when some record contributes to it; the entry's lists are the date's values in record order |
| HealthExport.ValuesOnConcat | scripts/parse_apple_hr.py:51-77 | the values filed under a date and category distribute over concatenation of the record list |
| HealthExport.SkippedRecordValues | scripts/parse_apple_hr.py:56-77 | dropping a non-contributing record leaves every date and category list unchanged |
| HealthExport.SkippedRecordChangesNothing | scripts/parse_apple_hr.py:56-77 | a skipped record can be removed from anywhere in the input without changing the summary: the run continues past it |
| HealthExport.Min | scripts/parse_apple_hr.py:90 | the minimum is an element and at most every element |
| HealthExport.Max | scripts/parse_apple_hr.py:91 | the maximum is an element and at least every element |
| HealthExport.Truncate | scripts/parse_apple_hr.py:97 | `int()` truncates toward zero: within 1 of x, on the side of 0 |
| HealthExport.Aggregate | scripts/parse_apple_hr.py:82-100 | keys only from the seven metric names; each key is present exactly when its category has readings; avg_hr, min_hr, max_hr together; non-empty exactly when some list is |
| HealthExport.AggregateDay | scripts/parse_apple_hr.py:82-100 | the aggregation body builds `agg` as the aggregate of the day |
| HealthExport.SummarizeOneMoreDate | scripts/parse_apple_hr.py:102-103 | one more date adds its entry exactly when its aggregate is non-empty |
| HealthExport.SummarizeDays | scripts/parse_apple_hr.py:79-105 | the second loop builds `summary` with exactly the dates whose aggregate is non-empty |
| HealthExport.ParseHealthExport | scripts/parse_apple_hr.py:41-105 | the whole function is the summary of the grouped records |
| HealthExport.SummaryFromRecords | scripts/parse_apple_hr.py:41-105 | a date is in the summary exactly when some record contributes to it; its entry aggregates exactly that date's values |
| HealthExport.SummaryEntriesWellFormed | scripts/parse_apple_hr.py:80-103 | every date in the summary has at least one metric, all among the seven known keys |
| HealthExport.MetricPresentIffReadings | scripts/parse_apple_hr.py:85-100 | each metric key (`resting_hr`, `avg_hr`, `min_hr`, `max_hr`, `hrv`, `step_count`, `active_energy_kcal`) is present for a date exactly when some record of its category fell on that date |
| HealthExport.StepCountIsTruncatedSum | scripts/parse_apple_hr.py:96-97 | `step_count` is the truncated sum of the date's step values |
| HealthExport.SumAtLeast | scripts/parse_apple_hr.py:86-100 | a lower bound on every value bounds the sum by bound × count |
| HealthExport.SumAtMost | scripts/parse_apple_hr.py:86-100 | an upper bound on every value bounds the sum by bound × count |
| HealthExport.MeanWithin | scripts/parse_apple_hr.py:86-94 | the mean lies within any bounds of the values |
| HealthExport.MeanBetweenMinAndMax | scripts/parse_apple_hr.py:89-91 | min <= mean <= max |
| HealthExport.HeartRateOrdered | scripts/parse_apple_hr.py:88-91 | with a monotone rounding, `min_hr <= avg_hr <= max_hr` |
| Text.DigitChar | scripts/es_bulk_loader.py:124 | a digit value 0..9 gives the digit character that reads back as it |
| Text.NatToString | scripts/es_bulk_loader.py:124 | `str(i)` is non-empty, all digits, with no leading zero unless it is "0" |
| Text.ReadNatToString | scripts/es_bulk_loader.py:124 | reading `str(i)` back as a decimal gives i |
| Text.NatToStringInjective | scripts/es_bulk_loader.py:124 | different positions give different strings |
| Text.ZeroPadded | scripts/es_bulk_loader.py:117-119 | a `%0Nd` field has exactly N digits |
| Text.ReadZeroPadded | scripts/es_bulk_loader.py:117-119 | reading a zero-padded field back gives the number |
| Text.SplitextRoot | scripts/es_bulk_loader.py:107 | the root is a prefix of the name; when shorter, what was dropped is a '.' followed by no '.' and no '/', and the root keeps a non-dot character after its last '/' |
| Text.PathStem | scripts/load_fit_to_es.py:54 | the stem is a prefix of the name; when shorter, it is non-empty and what was dropped is a '.' followed by at least one character and no further '.' |
| Text.RFind | scripts/es_bulk_loader.py:107 | the last occurrence of a character, or -1 when absent |
| Text.RootAndStemDropExtension | scripts/es_bulk_loader.py:107 | for a regular `.fit` name, `splitext` root and `Path.stem` both drop exactly the extension |
| Text.SplitextRootInjective | scripts/es_bulk_loader.py:107 | distinct regular `.fit` names have distinct session ids |
| Text.DoubleDotFitName | scripts/load_fit_to_es.py:54 | on "..fit" the two disagree: the `splitext` root is "..fit", the stem is "." |
| Text.DotFitName | scripts/es_bulk_loader.py:107 | the `splitext` root of ".fit" is ".fit": a leading dot starts no extension |
| Text.DotFitFitName | scripts/es_bulk_loader.py:107 | the `splitext` root of ".fit.fit" is ".fit", the same as that of ".fit" |
| Values.DateTimePart | scripts/es_bulk_loader.py:117-119 | the date-and-time part of `isoformat` has 19 characters |
| Values.IsoFormat | scripts/es_bulk_loader.py:117-119 | `isoformat` has 19 characters, or 26 with microseconds |
| Values.DateTimePartFields | scripts/es_bulk_loader.py:117-119 | the separators and the six fields of the date-and-time part read back |
| Values.IsoFormatRoundTrip | scripts/es_bulk_loader.py:117-119 | parsing the ISO string gives back the same datetime |
| Values.IsoFormatInjective | scripts/es_bulk_loader.py:117-119 | different datetimes give different ISO strings |
| Documents.ConvertDatetimes | scripts/es_bulk_loader.py:117-119 | same keys; every datetime becomes a string that parses back to it; every other value is unchanged; no datetime remains |
| Documents.DocumentContents | scripts/es_bulk_loader.py:112-119 | keys are the record's, `session_id` and the metrics'; metrics win over both; `session_id` is set unless a metric overrides it; other record values are kept; no datetime remains |
| Documents.DocumentIdParts | scripts/es_bulk_loader.py:124 | the id `f"{prefix}-{i}"` is the prefix, a '-', and decimal digits that read back as i |
| Documents.LastDashOfId | scripts/es_bulk_loader.py:124 | the last '-' of `<prefix>-<i>` sits right after the prefix |
| Documents.DocumentIdInjective | scripts/es_bulk_loader.py:124 | equal ids have equal prefixes and equal positions, whatever the prefix contains |
| Documents.DocumentIdsDistinct | scripts/es_bulk_loader.py:124 | two positions of one session get different ids |
| BulkLoader.FitFiles | scripts/es_bulk_loader.py:89 | an entry is kept exactly when it ends in `.fit` |
| BulkLoader.FitFilesDistinct | scripts/es_bulk_loader.py:89 | filtering distinct names keeps them distinct |
| BulkLoader.SessionActions | scripts/es_bulk_loader.py:110-127 | one action per record of the session |
| BulkLoader.SessionIdsDistinct | scripts/es_bulk_loader.py:110-127 | the ids of one session's actions are pairwise distinct |
| BulkLoader.BuildSessionActions | scripts/es_bulk_loader.py:110-127 | the inner loop yields, in record order, the action of each record: `<session>-<i>` as id and the built document as source |
| BulkLoader.FileStep | scripts/es_bulk_loader.py:97-131 | a file yields at most one log line, and a file that logs a line yields no action |
| BulkLoader.GenerateActions | scripts/es_bulk_loader.py:74-131 | the nested loops produce the specified actions and failure-log lines; a missing directory produces neither |
| BulkLoader.GenerateOneMoreFile | scripts/es_bulk_loader.py:95-131 | one more file appends its actions and log lines after the earlier ones |
| BulkLoader.FileStepCases | scripts/es_bulk_loader.py:97-131 | an empty file yields nothing; a file whose parsing raises, or whose metrics raise, yields one log line with that error and no action; otherwise the file yields its session's actions, with the `splitext` root as session id, and no log line |
| BulkLoader.GenerateConcat | scripts/es_bulk_loader.py:95-131 | the file loop distributes over concatenation of the file list |
| BulkLoader.GenerateSnoc | scripts/es_bulk_loader.py:95-131 | one more file at the end appends that file's actions and log lines |
| BulkLoader.ActionsConcat | scripts/es_bulk_loader.py:95-131 | the actions of a concatenated file list are those of each part, in order |
| BulkLoader.FailuresConcat | scripts/es_bulk_loader.py:95-131 | the log lines of a concatenated file list are those of each part, in order |
| BulkLoader.FailingFileIsolated | scripts/es_bulk_loader.py:97-131 | a file whose parsing raises is logged once and the files after it are processed as if it were absent |
| BulkLoader.MetricsFailureIsolated | scripts/es_bulk_loader.py:106-131 | a file whose `compute_session_metrics` raises is logged once with that error, and the files after it are processed as if it were absent |
| BulkLoader.ActionsComeFromFiles | scripts/es_bulk_loader.py:110-127 | every action targets the index name and carries `<root of a listed file>-<i>` as id |
| BulkLoader.OnlyFitEntries | scripts/es_bulk_loader.py:85-89 | a missing directory yields nothing; every action comes from a listed entry ending in `.fit` |
| BulkLoader.StepIds | scripts/es_bulk_loader.py:107-124 | action k of a file has id `<root>-<k>` |
| BulkLoader.IdsDifferAcrossFiles | scripts/es_bulk_loader.py:107-124 | actions of differently named regular files never share an id |
| BulkLoader.GeneratedIdsUnique | scripts/es_bulk_loader.py:95-131 | over distinct regular `.fit` names, all ids of a run are pairwise distinct |
| BulkLoader.DotNamesCollide | scripts/es_bulk_loader.py:107-124 | when ".fit" and ".fit.fit" both yield records, two actions of the run share the id ".fit-0" |
| BulkLoader.ListingIdsUnique | scripts/es_bulk_loader.py:85-131 | over a listing of distinct names whose `.fit` names are regular, all ids of the run are pairwise distinct |
| BulkLoader.PlaceholderParserYieldsNothing | scripts/es_bulk_loader.py:35-42 | with the placeholder parser that returns `[]`, no action and no log line is produced |
| BulkLoader.Count | scripts/es_bulk_loader.py:175-184 | one item grows exactly one counter, success exactly when it is ok; the log gains a line exactly for a failure with info; the loop stops exactly at a failure without info |
| BulkLoader.CountOutcomes | scripts/es_bulk_loader.py:160-196 | the counting loop returns the specified success and failure counts and log lines, stopping at a failure without info |
| BulkLoader.StoppedStaysStopped | scripts/es_bulk_loader.py:188-196 | once the loop has been ended by an exception, the rest of the stream changes nothing |
| BulkLoader.TallyOfWellFormed | scripts/es_bulk_loader.py:165-184 | over well-formed outcomes, success + failure = items consumed, successes are the ok items, and there is exactly one log line per failure, with id 'unknown' and error 'unknown error' when absent |
| BulkLoader.MalformedOutcomeStops | scripts/es_bulk_loader.py:178-191 | a failure without info counts as a failure, logs no line and ends the loop; the counts so far are returned |
| BulkLoader.TallyGrows | scripts/es_bulk_loader.py:165-184 | counts never decrease and the log only grows as the stream is consumed |
| BulkLoader.OneBadDocumentOfFive | scripts/es_bulk_loader.py:165-184 | four successes and one failure give counts 4 and 1 and one log line naming the failed id |
| BulkLoader.BulkLoad | scripts/es_bulk_loader.py:134-196 | the returned counts are those of the outcome stream for the generated actions; the log holds the file failures and then the document failures |
| BulkLoader.AllFilesFail | scripts/es_bulk_loader.py:95-131 | when every `.fit` file raises, no action is generated and there is exactly one file-level failure per file |
| BulkLoader.AllFilesFailExitZero | scripts/es_bulk_loader.py:129-131 | file-level failures never reach the exit status: if every file raises, nothing is sent, no document fails and the status is 0 |
| BulkLoader.ExitStatus | scripts/es_bulk_loader.py:340-341 | exit status 1 exactly when the failure count is positive, 0 otherwise |
| SimpleLoader.FolderPath | scripts/load_fit_to_es.py:22-37 | the CLI folder when non-empty, else `FIT_FOLDER` when non-empty, else `<repo>/garmin`; never empty |
| SimpleLoader.FolderPrecedence | scripts/load_fit_to_es.py:28-37 | an empty setting counts as unset; a non-empty CLI folder makes the environment irrelevant |
| SimpleLoader.FitIndex.constructor | scripts/load_fit_to_es.py:44 | a new client sees whatever the server's index already holds |
| SimpleLoader.FitIndex.Recreate | scripts/load_fit_to_es.py:47-48 | after delete and create the index is empty |
| SimpleLoader.FitIndex.Index | scripts/load_fit_to_es.py:65 | storing a document sets that id and overwrites any earlier document under it |
| SimpleLoader.LoadFile | scripts/load_fit_to_es.py:51-66 | after an exception nothing more changes; a file whose parsing or metrics raise keeps the stored documents and the count; a file that loads adds its number of records to `count`; no stored id is removed |
| SimpleLoader.LoadToEs | scripts/load_fit_to_es.py:42-68 | the index contents, the count and whether the run ended normally are those of the specified load over the `.fit` files |
| SimpleLoader.LoadOneMoreFile | scripts/load_fit_to_es.py:51-66 | one more file extends the specified load by that file |
| SimpleLoader.FailureIsFinal | scripts/load_fit_to_es.py:51-53 | an exception ends the run: the remaining files change nothing |
| SimpleLoader.FileDocumentsKeys | scripts/load_fit_to_es.py:56-65 | one file's documents are stored exactly under `<file name>-<i>` for its record positions |
| SimpleLoader.FileDocumentsValues | scripts/load_fit_to_es.py:56-65 | record i is stored as its document with the stem as session id, metrics merged, datetimes as ISO strings |
| SimpleLoader.FileDocumentsSize | scripts/load_fit_to_es.py:56-66 | one file adds as many documents as it has records: none overwrites another |
| SimpleLoader.StoredIdsComeFromFiles | scripts/load_fit_to_es.py:51-65 | every stored id is `<file name>-<i>` for a file of the run |
| SimpleLoader.IndexSizeIsCount | scripts/load_fit_to_es.py:50-66 | over distinctly named files, the index holds exactly `count` documents |
| SimpleLoader.OtherFileKeepsRecords | scripts/load_fit_to_es.py:51-65 | storing another file's documents leaves this file's documents in place |
| SimpleLoader.EveryRecordStored | scripts/load_fit_to_es.py:51-65 | after a run without exceptions, every record of every file is stored under `<file name>-<i>` as its document |
| SimpleLoader.CountIsTotalRecords | scripts/load_fit_to_es.py:50-68 | after a run without exceptions, `count` is the total number of records across the `.fit` files |
| SimpleLoader.IdsDifferBetweenLoaders | scripts/load_fit_to_es.py:65 | the simple loader's id `<name>.fit-<i>` differs from the bulk loader's `<name>-<i>` for the same record |

## Left out

- XML parsing of the Health export is left out. The model starts from the sequence of `Record` attribute triples.
- `pd.to_datetime(...).strftime` and `float()` are parameters that may fail. Time zones, the accepted date formats and strings such as "nan" are not modelled.
- Floating point is not modelled: readings and sums are reals, and `round(x, 1)` is an arbitrary function `real -> real`.
- HealthExport.HeartRateOrdered: holds only for a monotone rounding. Python's `round` is monotone, but that is not proved here.
- Values.DateTime: only naive datetimes are modelled, so `isoformat` has 19 or 26 characters. A timezone-aware `datetime` (whose `isoformat` ends in an offset such as `+00:00`) and a pandas `Timestamp` (whose `isoformat` may carry nanoseconds) also pass the `isinstance(value, datetime.datetime)` test at `scripts/es_bulk_loader.py:118` and `scripts/load_fit_to_es.py:61`. The decoder could return them, but their ISO strings and the round trip are not modelled.
- Python dict key order (`defaultdict`, `summary`, the documents) is not modelled, because dicts are maps.
- `pd.Series(...).mean()` and `.sum()` are plain sums over reals. Pandas' NaN-skipping is left out, because the parsed values come from `float()` and never hold NaN except through the "nan" string, which is not modelled.
- `parse_fit_file` and `compute_session_metrics` are an opaque `Decoder`. No implementation of either exists in the files modelled here: `scripts/es_bulk_loader.py` imports them from `scripts/load_fit_to_es.py`, which imports them back, and only the placeholders that return `[]` and `{}` are defined. The placeholder case is `BulkLoader.PlaceholderParserYieldsNothing`.
- Logging (`logger`, the failure log file's format and timestamps), `tqdm`, `argparse`, the Elasticsearch connection, `ping`, `create_index_with_settings` and `restore_index_settings` are left out. They are I/O or constant settings.
- The chunking, retries and backoff of `helpers.streaming_bulk` are left out, because that library is not part of this model. Its output is a function from the actions to an outcome sequence. An exception it raises part-way is modelled as the stream ending there.
- BulkLoader.BulkLoad: the generator and the outcome stream are interleaved lazily in the source, so file failures and document failures alternate in the log. The model lists all file failures first. It also generates all actions even if the stream stops early.
- BulkLoader.GenerateActions: exceptions are modelled only where `parse_fit_file` and `compute_session_metrics` raise. A malformed record (not a dict) raising inside the inner loop is not modelled.
- A failed item's `error_info.get('_id', 'unknown')` returns a present `None` as `None`. The model treats a present `None` like an absent key.
- SimpleLoader.LoadToEs: `es.index` is assumed to succeed. A failing call, which would end the run, is not modelled. `Path.glob` order and symlinked or directory entries named `*.fit` are not modelled: the files are the `.fit` names of a listing.
- SimpleLoader.FolderPath: `Path` normalisation (trailing slashes, `..`) is not modelled. The default is the repository root joined with `/garmin`.
- The printed summary lines and `json.dumps` of the `zones.py` demo loop (`zones.py:50-61`) are left out.
- `fit_parser.py` (FIT decoding, per-row HTTP posts, thread pool, zip and log writing), `fit2csv.py` and the root `load_fit_to_es.py` trampoline are not part of this model.

## Findings

| source | as written | input that shows it | evidently intended | confidence | as-written member | corrected member |
|---|---|---|---|---|---|---|
| zones.py:19-28 | `heart_rate < 120` … `< 180` are all False for NaN, so a NaN reading falls through to "Zone 5"; a NaN power falls through to "Zone 7". `fit_parser.py:51-55` applies both functions to pandas columns, where a missing reading is NaN, not `None`. | heart_rate = NaN → "Zone 5"; power = NaN → "Zone 7" | a missing (NaN) reading gets no zone, as `None` does (the demo in `zones.py:55-58` cleans NaN to `None` before classifying) | medium, not executed | Zones.NaNReadingGetsTopZone | Zones.HeartRateZoneOfReading |
| zones.py:30-47 | same fall-through for power | power = NaN → "Zone 7" | a NaN power gets no zone | medium, not executed | Zones.NaNReadingGetsTopZone | Zones.PowerZoneOfReading |
| scripts/es_bulk_loader.py:107-124 | the session id is `os.path.splitext(filename)[0]`, and a leading dot never starts an extension, so ".fit" keeps the root ".fit" while ".fit.fit" drops to ".fit". Both files then produce the ids ".fit-0", ".fit-1", …, and in the index the later file's documents overwrite the earlier one's. | files ".fit" and ".fit.fit", each with at least one record → two actions with id ".fit-0" | every file of a run gets its own ids; that holds for names with a non-dot character before ".fit", whose roots are distinct, and the id uniqueness lemmas (`GeneratedIdsUnique`, `ListingIdsUnique`) assume such names | low (only hidden-file names are affected), not executed | BulkLoader.DotNamesCollide | Text.SplitextRootInjective |
