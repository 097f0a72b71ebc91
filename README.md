# Schema inference and routing pipeline, modelled in Dafny

This project models the inference-and-routing chain of a small ingestion
pipeline for JSON sensor records. The chain has four stages and two ledgers:

- **Key normaliser** (`normalizer.dfy`, module `Normalizer`). It rewrites
  camelCase and PascalCase keys to snake_case, lower-cases them and turns
  spaces into underscores. It then matches the cleaned key against a growing
  registry of canonical names with difflib's `get_close_matches`. The
  registry is kept by the class `DynamicNormalizer`, and records are renamed
  recursively through dicts and lists.
- **Field profiler** (`analyzer.dfy`, module `Analyzer`). The class
  `DataAnalyzer` folds records into per-field counters: occurrence counts, a
  type histogram, a capped sample set, and nested and array flags. It then
  writes a summary sorted by field name, with frequency, dominant type (with
  the digit-mask override), type stability and cardinality. The
  latest-timestamp loop of the analysis run is modelled too.
- **Field classifier** (`classifier.dfy`, module `Classifier`). It reads
  each summary entry back as `FieldStats` and classifies it by a first-match
  cascade: a mandatory name gives BOTH, an unstable type gives MONGO, and
  otherwise a weighted penalty score is compared with a threshold.
- **Record router** (`router.dfy`, module `Router`). It turns the
  classification manifest into a field-to-decision map. It then reads a
  stream of `data: ` lines, stamps each record with its ingest time, splits
  it into an SQL document and a Mongo document, writes a log block, and stops
  after the requested number of records.
- **Run ledgers** (`timestamp_manager.dfy` and `metadata_store.dfy`, modules
  `TimestampLedger` and `MetadataLedger`). These are two append-only
  registries. One records each ingestion run: a set-once first run, a run
  counter and a history. The other records the SQL column types and mirrored
  fields of the current schema, with a history of snapshots.

Two shared modules give the JSON and text vocabulary: `json.dfy` (module
`Json`) and `text.dfy` (module `Text`).

- **JSON values** are a datatype. A Python dict is an ordered list of
  (key, value) pairs. `Put` overwrites a present key in place and appends an
  absent one, as dict assignment does. `FromPairs` builds a dict comprehension
  in which the later value wins.
- **Floats** carry their printed text, because `str(value)` of a float is not
  computed by the model.
- **Strings** are ordered by code point, as Python orders them. `sorted`,
  decimal printing and the `data: ` prefix test are modelled.

Clock readings are parameters: the router's `now`, the ledgers' `runTime`
and `createdAt`. So is the JSON parser of the stream (`parse`), and so is
difflib's similarity ratio. That ratio is assumed only to lie in [0, 1] and
to be 1 exactly for equal strings.

## Model

| member | source | states |
|---|---|---|
| Normalizer.SplitCamelInsertsUnderscores | src/normalizer.py:23 | The camelCase substitution inserts exactly one `_` per lower-or-digit-then-upper boundary and changes nothing else (removing underscores gives back the input's letters). |
| Normalizer.SplitCamelJunction | src/normalizer.py:23 | The substitution of a concatenation is the substitutions of the two parts, with one `_` between them exactly when the first part ends with a lower-case letter or digit and the second starts with an upper-case letter. So every `_` lands inside a boundary pair. |
| Normalizer.SplitCamelIdentity | src/normalizer.py:23 | The substitution leaves a key unchanged exactly when it has no word boundary. |
| Normalizer.CleanChar | src/normalizer.py:25 | `.lower()` then `.replace(" ", "_")` on one character: an upper-case ASCII letter becomes its lower-case letter (code point plus 32), a space becomes `_`, everything else is kept, and no upper-case letter or space remains. |
| Normalizer.CleanKey | src/normalizer.py:23-25 | A cleaned key holds no upper-case letter and no space. |
| Normalizer.CleanKeyFixed | src/normalizer.py:23-25 | A key without upper-case letters and spaces is its own cleaned form. |
| Normalizer.CleanKeyIdempotent | src/normalizer.py:23-25 | Cleaning a cleaned key changes nothing. |
| Normalizer.CleanTwoWords | src/normalizer.py:23-25 | `lowerUpper` cleans to `lower_upper` for any lower-case words. |
| Normalizer.CleanCapitalFirst | src/normalizer.py:23-25 | A leading capital is lower-cased and starts no new word. |
| Normalizer.SplitBeforeWord | src/normalizer.py:23 | A lower-case word followed by a capitalised word is split by exactly one `_` between them. |
| Normalizer.CleanCamelCase | src/normalizer.py:23-25 | `userName` cleans to `user_name`. |
| Normalizer.CleanSnakeCase | src/normalizer.py:23-25 | `user_name` cleans to itself. |
| Normalizer.CleanSerName | src/normalizer.py:23-25 | `serName` cleans to `ser_name`. |
| Normalizer.CleanPascalCase | src/normalizer.py:23-25 | `UserName` cleans to `user_name`. |
| Normalizer.OutranksTransitive | src/normalizer.py:28 | The (score, key) tuple order by which get_close_matches ranks candidates is transitive. |
| Normalizer.OutranksTotal | src/normalizer.py:28 | Of two distinct candidates, one outranks the other. |
| Normalizer.OutranksAsymmetric | src/normalizer.py:28 | No two candidates outrank each other. |
| Normalizer.CloseMatch | src/normalizer.py:28 | The match is a registry entry scoring at least the cutoff that outranks every other such entry (best match, not first match); there is none exactly when every entry scores below the cutoff. |
| Normalizer.CloseMatchExact | src/normalizer.py:28-31 | A key already in the registry is its own best match. |
| Normalizer.RegistryDistinct | src/normalizer.py:28-34 | A registry grown by the normaliser holds no name twice. |
| Normalizer.AppendKeepsRegistry | src/normalizer.py:32-35 | Appending a cleaned key that matched nothing keeps every entry clean and every later entry below the cutoff against each earlier one. |
| Normalizer.DynamicNormalizer.constructor | src/normalizer.py:16-18 | A new normaliser has an empty registry and the given threshold. |
| Normalizer.DynamicNormalizer.NormalizeKey | src/normalizer.py:20-35 | The result is in the registry. On a close match it is that match and the registry is unchanged; otherwise the cleaned key is appended and returned. A key already registered returns itself with the registry unchanged. The returned name is at least `threshold` similar to the cleaned key. The registry invariant is kept. |
| Normalizer.DynamicNormalizer.NormalizeRecord | src/normalizer.py:37-44 | The result renames keys at every depth. Scalars are unchanged, and lists keep length and order. A dict is rebuilt from one pair per input entry, in order, with the later value winning. Each pair's key is at least `threshold` similar to the cleaned key of the entry it replaces, and its value renames that entry's value. Every key of the result is in the registry, and the registry only grows by appending. |
| Normalizer.DynamicNormalizer.NormalizeItems | src/normalizer.py:39-40 | The list comprehension keeps the length and renames each item in order, at every depth, with each renamed key at least `threshold` similar to the cleaned key it replaces. |
| Normalizer.DynamicNormalizer.NormalizeFields | src/normalizer.py:44 | The dict comprehension is the dict built from one (key, value) pair per entry, in order. The j-th key is at least `threshold` similar to the cleaned j-th input key, and the j-th value renames the j-th input value. Every key lands in the registry. |
| Normalizer.DynamicNormalizer.NormalizeEntry | src/normalizer.py:44 | The key of one entry is the close match of its cleaned key in the registry as it was before the call, or the cleaned key itself when there is none. That name is in the registry and at least `threshold` similar to the cleaned key. The value is renamed. |
| Normalizer.KeysInFromPairs | src/normalizer.py:44 | Building the dict brings in no key that the pairs did not have. |
| Normalizer.SpellingsConverge | src/normalizer.py:20-35 | `userName`, `user_name` and `UserName`, fed to a fresh normaliser, all come out as `user_name`, and the registry ends as just `["user_name"]`. |
| Analyzer.TypeOf | src/analyzer.py:18-26 | A boolean is `boolean` and never `integer`; only integers are `integer`. |
| Analyzer.TypeNamesDistinct | src/analyzer.py:18-26 | Each value gets exactly one type name; values of different kinds get different names. |
| Analyzer.MaskShape | src/analyzer.py:31 | The digit mask has no digits, keeps every non-digit character, and adds only `d`. |
| Analyzer.MaskRun | src/analyzer.py:31 | A maximal run of digits becomes a single `d`. |
| Analyzer.RunAbsorbed | src/analyzer.py:31 | The rest of a digit run adds nothing to the mask. |
| Analyzer.PatternShape | src/analyzer.py:28-33 | The pattern is not `none` exactly when the string has a digit and one of `.`, `-`, `_`; a pattern then has no digit and keeps a separator. |
| Analyzer.Bump | src/analyzer.py:38 | Counting one value of a type adds one to the histogram total and keeps every count positive. |
| Analyzer.BumpTypesPresent | src/analyzer.py:38 | Counting a type already seen keeps the order of the types seen. |
| Analyzer.BumpTypesAbsent | src/analyzer.py:38 | Counting a new type appends it after the types seen. |
| Analyzer.BumpWellFormed | src/analyzer.py:38 | A histogram keeps positive counts and distinct types. |
| Analyzer.Count | src/analyzer.py:36 | A field's count is at most the number of observations. |
| Analyzer.Histogram | src/analyzer.py:37-38 | The reference histogram of a field has positive counts summing to the field's count. |
| Analyzer.HistogramWellFormed | src/analyzer.py:37-38 | The reference histogram lists each type once. |
| Analyzer.Samples | src/analyzer.py:43-45 | A sample set never exceeds 10,000 entries or the field's count. |
| Analyzer.SamplesAreScalars | src/analyzer.py:39-45 | Every sample is the text of a scalar value the field took; dicts and lists are never sampled. |
| Analyzer.NestedSetIff | src/analyzer.py:39-40 | A field is nested exactly when one of its values was a dict. |
| Analyzer.ArraySetIff | src/analyzer.py:41-42 | A field is an array field exactly when one of its values was a list. |
| Analyzer.CountInDict | src/analyzer.py:52-53 | One record counts a field once if it has that key, else not at all. |
| Analyzer.CountAtMostRecords | src/analyzer.py:49-53 | A field's count is at most the number of records. |
| Analyzer.CountsAreCounts | src/analyzer.py:36 | The counters hold a field exactly when it occurred, with its number of occurrences. |
| Analyzer.TypesAreHistograms | src/analyzer.py:37-38 | The type counters of a field are its reference histogram. |
| Analyzer.ValuesAreSamples | src/analyzer.py:43-45 | The value counters of a field are its reference sample set. |
| Analyzer.FlagsAreShapes | src/analyzer.py:39-42 | The nested and array sets are the reference sets. |
| Analyzer.OrderIsFirstOccurrences | src/analyzer.py:36 | The key order of `field_counts` is the order of first occurrence. |
| Analyzer.OrderIsKeys | src/analyzer.py:36 | That order lists each counted field exactly once. |
| Analyzer.CountsBounded | src/analyzer.py:36-38 | For every counted field, the histogram sums to the count, which is at most the number of records. |
| Analyzer.Dominant | src/analyzer.py:64 | `max` by count picks a type of maximal count, the first one among equals. |
| Analyzer.DominantUnique | src/analyzer.py:64 | The first type of maximal count is the only such choice. |
| Analyzer.DominantType | src/analyzer.py:64-72 | Without an override, the dominant type is the name of the first most frequent type. |
| Analyzer.OverrideOnlyForStrings | src/analyzer.py:65-72 | The mask replaces the dominant type exactly when that type is `string`, samples exist and the chosen sample has a pattern. |
| Analyzer.SummaryRanges | src/analyzer.py:62-74 | Frequency is in (0, 1], stability is in (0, 1] and equals 1 exactly when one type was seen, and cardinality is in [0, 1]. |
| Analyzer.FieldFacts | src/analyzer.py:36-45 | A counted field has a well-formed non-empty histogram summing to a count in (0, records], and no more samples than its count. |
| Analyzer.AlwaysReady | src/analyzer.py:49-53 | Counters built from records can always be summarised without a division by zero. |
| Analyzer.EntryRanges | src/analyzer.py:59-84 | Every summary entry of a batch has its ratios in the ranges above. |
| Analyzer.SortedNamesReady | src/analyzer.py:60 | The sorted field names are strictly sorted, are exactly the counted fields, and are empty when no record was seen. |
| Analyzer.SummarizeAll | src/analyzer.py:59-84 | The summary loop yields one entry per sorted name, in order, each summarising its field. |
| Analyzer.DataAnalyzer.constructor | src/analyzer.py:9-16 | A new analyzer has seen no record and holds empty counters. |
| Analyzer.DataAnalyzer.AnalyzeValue | src/analyzer.py:35-47 | One value moves the counters by one observation step. |
| Analyzer.DataAnalyzer.CountValue | src/analyzer.py:36-38 | The field's count and its type's count go up by one; a new field is appended to the key order. |
| Analyzer.DataAnalyzer.RecordShape | src/analyzer.py:39-42 | A dict marks the field nested and a list marks it an array field. |
| Analyzer.DataAnalyzer.KeepSample | src/analyzer.py:43-45 | A scalar's text is added while fewer than 10,000 samples are held. |
| Analyzer.DataAnalyzer.AnalyzeItems | src/analyzer.py:52-53 | A record's items are observed in order. |
| Analyzer.DataAnalyzer.AnalyzeRecords | src/analyzer.py:49-53 | The batch is appended and counted, and the counters become those of all records seen. Every histogram sums to its field's count, which is at most the record total. |
| Analyzer.DataAnalyzer.SaveAnalysis | src/analyzer.py:55-93 | The summary has the record total and one entry per counted field, in strictly sorted name order, each summarising its field. It is empty with no records. |
| Analyzer.PyGreater | src/analyzer.py:112 | `>` compares two numbers (int, float or bool) by value and two strings by code points. A result exists only for two numbers or two strings. |
| Analyzer.LatestTimestamp | src/analyzer.py:109-113 | The loop computes the latest-timestamp fold as written, including the collision with the sentinel `"unknown"`. |
| Analyzer.LatestStaysNone | src/analyzer.py:112 | Once a comparison raises, the loop's outcome is the error. |
| Analyzer.LatestWithoutTimestamps | src/analyzer.py:109-113 | With no record carrying `timestamp`, the result is `unknown`. |
| Analyzer.StepKeepsGreatest | src/analyzer.py:111-113 | One step keeps the greater of the current value and the record's stamp. |
| Analyzer.LatestIsStamp | src/analyzer.py:109-113 | With string stamps other than `"unknown"`, the result is `unknown` exactly when no record has a stamp, and otherwise it is one of the stamps. A stamp `"unknown"` is excluded because it collides with the sentinel (see Findings). |
| Analyzer.LatestIsGreatest | src/analyzer.py:109-113 | With string stamps other than `"unknown"`, the result is at least every stamp seen. A stamp `"unknown"` is excluded because it collides with the sentinel (see Findings). |
| Analyzer.LatestIsGreatestNumber | src/analyzer.py:109-113 | With numeric stamps, the result is `unknown` exactly when no record has a stamp, and otherwise it is one of the stamps and at least every stamp by value. |
| Analyzer.LatestSentinelCollision | src/analyzer.py:109-113 | As written, the stamps `"b"`, `"unknown"`, `"a"` give `"a"`, which is below both others; the corrected loop gives `"unknown"`. |
| Analyzer.GreaterDecidesLeq | src/analyzer.py:112 | On two numbers or two strings, `>` never raises and decides `<=` both ways. |
| Analyzer.ValueLeqTransitive | src/analyzer.py:112 | Python's `<=` on numbers, and on strings, is transitive. |
| Analyzer.StepFixedKeepsGreatest | src/analyzer.py:111-113 | One turn of the corrected loop, on stamps of one kind, never raises and keeps the greater of the running value and the record's stamp. |
| Analyzer.LatestFixedIsStamp | src/analyzer.py:109-113 | With stamps all numbers or all strings, the corrected loop never raises. It reports no stamp exactly when no record has one, and otherwise one of the stamps. |
| Analyzer.LatestFixedIsGreatest | src/analyzer.py:109-113 | With stamps all numbers or all strings, the corrected loop reports a stamp at least as great as every stamp. |
| Analyzer.LatestAgrees | src/analyzer.py:109-113 | When no record is stamped `"unknown"`, the loop as written gives the same result as the corrected one. |
| Classifier.ClassifyField | src/classifier.py:37-97 | The result names the field, and the decision is BOTH exactly for the mandatory names. |
| Classifier.MandatoryFields | src/classifier.py:47-50 | A mandatory name gives BOTH, score 0 and no flags, whatever its statistics. |
| Classifier.UnstableGate | src/classifier.py:53-58 | Otherwise, stability below the limit gives MONGO, score 1 and exactly the flag `UNSTABLE_TYPE`. |
| Classifier.PenaltyFlags | src/classifier.py:64-84 | Past the gate, a flag is raised exactly when its strict comparison holds, in cascade order and at most once each. |
| Classifier.PenaltiesAreWeights | src/classifier.py:60-84 | The penalty is the sum of the weights of the flags raised. |
| Classifier.ScoreIsRatio | src/classifier.py:61-87 | The score is the sum of the raised flags' weights over the sum of all weights. |
| Classifier.DecisionByThreshold | src/classifier.py:90-95 | Past the gate, the decision is MONGO exactly when the score is above the threshold, and SQL otherwise. |
| Classifier.ScoreInUnitInterval | src/classifier.py:86-88 | With non-negative weights of positive sum, every score is in [0, 1]. |
| Classifier.DefaultDecision | src/classifier.py:60-95 | With the default tables, a field past the gate is MONGO exactly when SPARSITY or COMPLEX_STRUCTURE fired. |
| Classifier.NestedIsIrrelevant | src/classifier.py:73-79 | `isNested` never changes the result. |
| Classifier.GetNumber | src/classifier.py:117 | Reading a number gives a number stored under the key, or `KeyError` exactly when the key is missing. |
| Classifier.GetString | src/classifier.py:116 | Reading a string gives the string stored under the key, or `KeyError` exactly when the key is missing. |
| Classifier.GetFlag | src/classifier.py:121-122 | Reading a flag succeeds exactly when the key is present. |
| Classifier.LoadWithoutPattern | src/classifier.py:115-124 | A record without `dominant_pattern` fails to load with `KeyError('dominant_pattern')`, even when it has every other key. |
| Classifier.LoadCarried | src/classifier.py:115-124 | The corrected loader reads back exactly the statistics a record carries, with pattern `none`. |
| Classifier.SummaryRecordFields | src/analyzer.py:76-84 | An analyzer entry holds its field name, ratios and flags under the seven keys it writes. |
| Classifier.SummaryRecordCarries | src/analyzer.py:76-84 | An analyzer entry carries its statistics and has no `dominant_pattern` key. |
| Classifier.LoaderRejectsAnalyzerOutput | src/classifier.py:123 | Every entry the analyzer writes fails to load with `KeyError('dominant_pattern')`. |
| Classifier.LoadSummaryRecord | src/classifier.py:115-124 | The corrected loader reads every analyzer entry back as its own statistics. |
| Classifier.MapAllErrorStays | src/classifier.py:114-127 | The first field that fails to load ends the pipeline with its error. |
| Classifier.MapAllResults | src/classifier.py:114-127 | The pipeline succeeds exactly when every field loads, and then gives one result per field, in order. |
| Classifier.RunPipeline | src/classifier.py:114-127 | With the corrected loader, the loop computes the per-field mapping, stopping at the first error. |
| Classifier.SummaryRecords | src/analyzer.py:76-84 | The analyzer writes one entry per summary field, in order. |
| Classifier.PipelineOnSummary | src/classifier.py:114-127 | With the corrected loader, the pipeline classifies every field of the analyzer's output, in the analyzer's order, by the default classifier. |
| Classifier.PipelineAsWrittenFails | src/classifier.py:114-127 | With the loader as written, the pipeline fed any non-empty analyzer output fails with `KeyError('dominant_pattern')`. |
| Router.ClassificationMap | src/router_logger.py:26 | The map is a dict whose keys are exactly the manifest's field names. |
| Router.ClassificationMapLast | src/router_logger.py:26 | A later manifest entry with the same field name overrides an earlier one. |
| Router.DecisionOf | src/router_logger.py:79 | An unknown field's decision is MONGO; a known field's decision is its map entry. |
| Router.DocLookup | src/router_logger.py:83-89 | A field is in a document exactly when its decision sends it to that side, with its (last) value. |
| Router.Routing | src/router_logger.py:78-89 | Unknown and MONGO fields go to the Mongo document only; SQL fields go to the SQL document only; BOTH puts the same value in both; any other decision puts the field in neither. |
| Router.FieldLinesAppend | src/router_logger.py:78-81 | The field lines of a record are those of its parts, in order. |
| Router.FieldLinesSplit | src/router_logger.py:78-81 | Split at its line breaks, the field lines of a record give one `field : decision` line per field, in record order, and then the lines of what follows. This needs field names and decisions without line breaks. |
| Router.LogBlockHead | src/router_logger.py:75-76 | Split at its line breaks, a log block starts with `Record received at <time>` and `<n> Fields`, where n is the record's field count. This needs a time without line breaks. |
| Router.LogBlockLines | src/router_logger.py:75-91 | Split at its line breaks, a log block of a record with n fields has n + 4 lines: the arrival line, the count line, one `field : decision` line per field in record order, and two empty lines. The first empty line is the blank line closing the block, and the second is the empty text after it. This needs the time, the field names and the decisions to have no line breaks. |
| Router.StampAdds | src/router_logger.py:67-68 | The stamp sets `sys_ingested_time` to the ingest time and adds one field unless it was already there. |
| Router.Receive | src/router_logger.py:70-95 | Receiving a record counts exactly one more record. |
| Router.DataLines | src/router_logger.py:62-63 | The lines kept are the ones with the `data: ` prefix. |
| Router.RunSkipsOtherLines | src/router_logger.py:61-63 | Lines without the prefix are skipped and do not advance the count. |
| Router.ReceiveExtends | src/router_logger.py:94-95 | Each output list grows by at most one non-empty document per record. |
| Router.RunGrows | src/router_logger.py:59-98 | The loop only appends, and stops after at most `recordCount` records, or one if `recordCount` is zero or below. |
| Router.RunCount | src/router_logger.py:70-98 | With every data line a record, the count is `min(max(recordCount, 1), number of data lines)`, or zero with no data line. |
| Router.RunFails | src/router_logger.py:100-101 | A payload that is not a JSON object ends the loop with what was written so far. |
| Router.RunReceives | src/router_logger.py:65-98 | A record line is stamped, received, and then ends the loop or lets it continue. |
| Router.ProcessBounds | src/router_logger.py:94-98 | No output list holds an empty document or more documents than records received, and at most `max(1, recordCount)` records are received. |
| Router.OneRecordAtLeast | src/router_logger.py:97-98 | With `recordCount` of zero or below, exactly one record is still received when there is one. |
| Router.RouteRecord | src/router_logger.py:78-89 | The field loop builds the two documents and the field lines of the record. |
| Router.ReceiveRecord | src/router_logger.py:70-95 | One turn of the stream loop writes the log block and appends the non-empty documents. |
| Router.ProcessAndSplit | src/router_logger.py:59-101 | The stream loop writes the SQL records, the Mongo records and the log of the specification `Process`. |
| TimestampLedger.TimestampManager.constructor | src/timestamp_manager.py:19-32 | A new registry has no first, latest or last data point, zero runs and an empty history. |
| TimestampLedger.TimestampManager.UpdateTimestamps | src/timestamp_manager.py:34-51 | `first_run` is set only while unset. `latest_run` becomes the run time and `last_data_point` the batch stamp. `total_runs` goes up by one and one entry with `run_id` equal to it is appended. Nothing else changes, and the registry invariant (`total_runs` equals the history length; the summary describes the history) is kept. |
| TimestampLedger.TimestampManager.ResetRegistry | src/timestamp_manager.py:53-55 | Reset gives back the empty state with a new creation time. |
| TimestampLedger.TimestampManager.GetLastProcessedTime | src/timestamp_manager.py:58-59 | The result is `last_data_point`, which in a valid registry is the last run's data stamp, or None before the first run. |
| MetadataLedger.TypeMappingLookup | src/metadata_store.py:42-45 | `type_mapping` maps a name exactly when it is an SQL field the report names, to the type of its last report entry. |
| MetadataLedger.LastTypeFound | src/metadata_store.py:42-45 | The report has a type for a name exactly when it names it. |
| MetadataLedger.TypeMappingKeys | src/metadata_store.py:42-45 | The columns of `type_mapping` are exactly the SQL fields the report names. |
| MetadataLedger.TypeMappingIsDict | src/metadata_store.py:42-45 | `type_mapping` holds no column twice. |
| MetadataLedger.BuildTypeMapping | src/metadata_store.py:42-45 | The loop builds `type_mapping`. |
| MetadataLedger.MetadataStore.constructor | src/metadata_store.py:16-32 | A new registry has version 1.0, the project name, the two table names, no columns, no mirrored fields and no history. |
| MetadataLedger.MetadataStore.SyncFromPipeline | src/metadata_store.py:34-62 | A missing report changes nothing. Otherwise the columns become `type_mapping` and the mirrored fields the given ones, and one `success` entry with the record count and the new columns as snapshot is appended. System info and config are untouched, and the registry invariant is kept. |
| MetadataLedger.MetadataStore.ResetMetadata | src/metadata_store.py:64-67 | Reset gives back empty columns, no mirrored fields and no history. |
| MetadataLedger.MetadataStore.GetSqlSchema | src/metadata_store.py:69-70 | The result is the current columns, which in a valid registry are the latest run's snapshot. |
| Json.Put | src/metadata_store.py:45 | After `d[k] = v`, looking up `k` gives `v`. |
| Json.PutOthers | src/metadata_store.py:45 | `d[k] = v` leaves every other key's value alone. |
| Json.PutKeys | src/router_logger.py:84 | Assignment keeps a present key in its place and appends an absent one. |
| Json.PutIsDict | src/router_logger.py:84 | Assignment keeps every key unique. |
| Json.FromPairs | src/normalizer.py:44 | A dict comprehension holds each key once, in order of first occurrence, and only pairs from its input. |
| Json.FromPairsLookup | src/normalizer.py:44 | In a dict comprehension, the later value for a key wins. |
| Text.SortStrings | src/analyzer.py:60 | `sorted` gives a sorted permutation of its input. |
| Text.SortDistinct | src/analyzer.py:60 | Sorting distinct keys gives them strictly sorted, each once. |
| Text.NatToStringRoundTrip | src/router_logger.py:76 | The decimal text of the field count reads back as that count, without a leading zero. |
| Text.StrLessTransitive | src/analyzer.py:112 | Python's string order is transitive. |
| Text.StrLessTotal | src/analyzer.py:112 | Python's string order is total. |

## Left out

- File I/O is not modelled: every JSON load and save, `_save`, `_load_state`, `_load_initial_registry`, the `run_*` entry points, printing and the log-file write. The log is returned as text.
- A ledger loaded from an existing file is not modelled. Both ledgers start from their empty state, and their invariants are stated for registries grown from it.
- Network and processes are not modelled: `waitForServer`, the uvicorn subprocess and the `httpx` stream. The stream is a sequence of lines.
- `json.loads` of a stream line is the parameter `parse`. A parse error, or a payload that is not an object, ends the loop as the outer `except` does.
- Clock readings are parameters: `datetime.now()` in the router (`now`), in the ledgers (`runTime`, `createdAt`) and in the empty states.
- difflib's `SequenceMatcher.ratio` is an abstract function, assumed only to lie in [0, 1] and to equal 1 exactly for equal strings. The ranking of `get_close_matches` by (score, key) is modelled.
- A similarity threshold outside [0, 1] makes difflib raise on every call. The normaliser's constructor requires the threshold to be in [0, 1].
- `.lower()`, `[a-z0-9]`, `[A-Z]` and `\d` are modelled on ASCII only.
- The text of a float, used by `str(value)` for samples and by the JSON dump, is carried with the value, not computed.
- Analyzer.DataAnalyzer.SaveAnalysis: the sample that `next(iter(set))` inspects depends on hash order. It is a nondeterministic choice, so the contract holds for every choice.
- The pattern computed and discarded in `_analyze_value` has no effect and is not modelled.
- Type names for values that JSON cannot produce (the `type(value).__name__` fallback) are not modelled.
- Classifier.ClassifyField: the score is exact over reals. The display rounding `round(normalizedScore, 3)` is left out; the decision uses the unrounded score, as the source does.
- Classifier.ClassifyField: a weight sum of zero past the gates divides by zero in the source. The function requires the sum to be non-zero on that path.
- The `WEIGHTS` and `THRESHOLDS` dicts are records with the three named entries the classifier reads. Missing entries (`KeyError`) are not modelled.
- Classifier.GetFlag: `is_nested` and `is_array` are read by Python truthiness of the stored value.
- The `reason` texts of `classifyField` are carried in the result but no lemma is stated about them.
- Manifest entries read by the router and analysis-report entries read by the metadata ledger are typed records. An entry there missing `fieldName`, `decision`, `field_name` or `dominant_type` (a `KeyError` in the source) is not modelled. The classifier reads its entries as JSON objects; see the next two lines.
- Classifier.GetNumber: a value of the wrong type under `frequency`, `type_stability` or `cardinality` fails at load time with `TypeError`. The source's dataclass stores any value and fails only when the value is compared, so a mandatory name such as `username` with `frequency: "n/a"` gives BOTH in the source but an error in the model.
- Classifier.GetString: a non-string under `field_name`, `dominant_type` or `dominant_pattern` fails at load time with `TypeError`. The source stores it. A non-string name is then checked against `MANDATORY_BOTH`, and a non-string type or pattern is never read by `classifyField`, so the source classifies such an entry where the model returns an error.
- MetadataLedger.MetadataStore.SyncFromPipeline: `list(mirrored_fields)` is taken as the given sequence. The order `list` gives a set is not modelled.
- MetadataLedger.MetadataStore.SyncFromPipeline: the history snapshot is the same dict object as `sql_columns` in the source. The model copies the value; nothing later mutates either.
- Analyzer.LatestTimestamp: the loop keeps the source's sentinel, so a stamp `"unknown"` can make it miss the greatest stamp (see Findings). The corrected fold `LatestFixed` is proved greatest for stamps all numbers or all strings; stamps of mixed kinds end in `TypeError` in both.
- Analyzer.PyGreater: two lists are compared lexicographically in Python, element by element. The model treats that comparison as an error that ends the latest-timestamp loop. Python raises `TypeError` for the other pairs (a dict, `null`, or a string with a number), and the model gives the same error for them.

## Findings

| source | as written | input that shows it | evidently intended | confidence | as-written member | corrected member |
|---|---|---|---|---|---|---|
| src/classifier.py:123 | `runPipeline` builds `FieldStats` with `dominantPattern=record['dominant_pattern']`, but `save_analysis` (src/analyzer.py:76-84) never writes that key, so loading raises `KeyError` on the first field. | Any analysis report written by `save_analysis` with at least one field, e.g. a report of one record `{"a": 1}`. | `dominant_pattern` is optional (read with a default of `"none"`); `classifyField` never uses it. | not executed | Classifier.LoaderRejectsAnalyzerOutput | Classifier.LoadSummaryRecord |
| src/analyzer.py:109-113 | `latest_ts` starts as the string `"unknown"`, and any stamp replaces it while it equals `"unknown"`. A record stamped `"unknown"` that wins a comparison therefore lets the next stamp win whatever its value. | Records stamped `"b"`, `"unknown"`, `"a"`: the result is `"a"`, below both others. | `latest_ts` is the greatest stamp; "no stamp yet" is a state of its own, not a value a stamp can take. | not executed | Analyzer.LatestSentinelCollision | Analyzer.LatestFixedIsGreatest |
