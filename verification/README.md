# openpath pipeline: a Dafny model of its core

This project models the core of the openpath pathology pipeline.

- Each lab supplies source files of test results.
- Each row passes through the lab's filter and normaliser, the date floor, and a classifier. The classifier places the result against age- and sex-banded reference ranges, or translates the lab's own flag.
- The surviving rows of a file are written as an intermediate file. It is named after the file's most common month, and the source file is recorded in the processing ledger.
- The lab's unmerged intermediate files are appended to its combined dataset, guarded against a double append.
- The combined dataset is normalised to canonical test codes and counted per (month, test code, practice, result category). Small counts are suppressed with an error bar, sparse lead-in months are trimmed, and the rest is joined with the practice table.
- The drivers (`process_files` in two library trees) choose the work, convert it, merge it and aggregate it.

The model is functional:

- Rows are maps from column names to fields (text, a parsed number, `None`, or a result code).
- Python exceptions are a `Result`. `StopProcessing` is the `Skip` stage of a per-row `Stage`.
- The ledger is a sequence of table rows.
- Files and directories are maps and sets of names.
- `float()`, `strptime`, `pd.to_datetime` and today's date are parameters.

| module | file | models |
|---|---|---|
| `Outcomes` | outcomes.dfy | exceptions, `Option`, `Result`, the row `Stage` |
| `Settings` | settings.dfy | result codes, names, suppression constants, `TEST_CODE_MAPPINGS`, `DATE_FLOOR`, the month categories |
| `Strings`, `Dates`, `Counting` | strings.dfy, dates.dfy, counting.dfy | Python string order, zero-padded dates, `Counter` |
| `Records` | records.dfy | rows, truthiness, the `col_mapping` reshaping |
| `Classifier` | classifier.dfy | `standard_convert_to_result` and `NO_REF_RANGES` |
| `RangeTables` | ranges.dfy | both `get_ref_ranges` |
| `Converter` | converter.dfy | the per-row loop of `make_intermediate_file` and `feed_file` |
| `Intermediate` | intermediate.dfy | output naming, `make_intermediate_file`, the `Anonymiser` class |
| `Ledger` | ledger.dfy | intermediate_file_tracking.py |
| `Merge` | merge.dfy | `combine_and_append_csvs` |
| `TestCodes` | testcodes.dfy | `_get_test_codes`, `_normalise_test_codes` (both trees) |
| `Aggregate` | aggregate.dfy | counting, suppression, `estimate_errors`, `trim_trailing_months`, the practice join, `normalise_and_suppress` |
| `Pipeline` | pipeline.dfy | `process_files` (both trees), `process_file`, `make_final_csv` |
| `Labs`, `Plymouth`, `Cambridge`, `Exeter`, `NorthDevon`, `Cornwall` | labs.dfy and one file per lab | the five lab rule sets |

One classifier serves both copies of `standard_convert_to_result`, because the two are line for line the same. It is given two ways:

- a reference definition, `Classifier.Classify`: the first range with the row's code whose age band holds the row decides;
- the loop as written, `Classifier.ConvertToResult`, which is proved equal to it.

Both follow the intended comparison. As written, one warning call leaves out its row and raises TypeError; `Classifier.CompareAsWritten` models that branch (see Findings).

The `NO_REF_RANGES` set is passed in and handed back, because it outlives each call.

## Model

| member | source | states |
|---|---|---|
| `Settings.FromValue` | lib/settings.py:35-43 | each stored integer reads back as the code stored as it, and only the nine code values read as a code |
| `Settings.ValuesDistinct` | lib/settings.py:35-43 | the nine result codes are pairwise distinct integers (0, -1, 1, 2 to 7) |
| `Settings.ErrorCodeNamesExact` | lib/settings.py:46-56 | every code has a friendly name, and nothing but a code has one |
| `Settings.SuppressStringValue` | data_sources/lib/settings.py:12-13 | SUPPRESS_UNDER is 6 and SUPPRESS_STRING, built from it, is "1-5" |
| `Settings.TestCodeMappingsShape` | lib/settings.py:18-23 | exeter has no entry, cambridge an empty list, every other lab at least one alias column |
| `Settings.DateFloor` | lib/settings.py:59 | the floor is a valid date exactly 60 months before today, no later in its month, and before today |
| `Settings.MonthCategoriesConsecutive` | lib/settings.py:75-82 | the month categories are the labels of consecutive months from the start month |
| `Settings.MonthCategoriesIncrease` | lib/settings.py:75-82 | the month categories strictly increase as strings |
| `Settings.MonthCategoriesCount` | lib/settings.py:75-82 | with the start day not after today's day, every month from the start month to today's is listed |
| `Settings.FloorCategories` | lib/settings.py:59-82 | from DATE_FLOOR there are 61 categories, from the floor's month to the current month |
| `Dates.TextOrder` | data_sources/lib/settings.py:41 | for zero-padded "YYYY/MM/DD" text, string order is date order |
| `Strings.PadOrder` | data_sources/lib/settings.py:41 | zero-padding to a fixed width makes string order agree with number order |
| `Records.ReshapeAt` | data_sources/cornwall/anonymiser_config.py:89-92 | when the reshaping loop succeeds, each target column holds the value of its source column, which was present |
| `Classifier.Trunc` | data_sources/lib/intermediate_file_processing.py:100-102 | `int()` truncates toward zero, for negative values too |
| `Classifier.Compare` | data_sources/lib/intermediate_file_processing.py:117-153 | over range only above high, under only below low, within only between the bounds; the outcome is one of four codes |
| `Classifier.CompareDirection` | data_sources/lib/intermediate_file_processing.py:117-153 | without a direction the outcome is the position; "<" over, ">" under, or a direction inside the band other than "<" at low 0 or ">" at the ceiling, are exactly the invalid cases |
| `Classifier.CompareAsWritten` | data_sources/lib/intermediate_file_processing.py:117-153 | as written, the comparison raises TypeError exactly when the result lies inside the band and the direction makes it invalid; otherwise it gives the intended code |
| `Classifier.MarkedInsideBandRaises` | data_sources/lib/intermediate_file_processing.py:146-151 | a "<5" result against 0.5-10 is ERR_INVALID_RANGE_WITH_DIRECTION as intended, and raises TypeError as written |
| `Classifier.Decide` | data_sources/lib/intermediate_file_processing.py:104-158 | on the deciding range, a sex other than M or F gives ERR_INVALID_SEX; the outcome is never a "no range", "unparseable" or "age" error |
| `Classifier.DecideBySex` | data_sources/lib/intermediate_file_processing.py:104-116 | an M or F row is judged only on its own sex's bounds, and an empty bound gives ERR_INVALID_REF_RANGE |
| `Classifier.InBand` | data_sources/lib/intermediate_file_processing.py:100-102 | the band holds the age exactly when int(float(min)) <= age < int(float(max)); an unparseable min cell raises ValueError first, then a non-number age TypeError, and the max cell is parsed, raising ValueError, only when the age passes the lower test |
| `Classifier.ReadQuery` | data_sources/lib/intermediate_file_processing.py:75-79 | the five cells are read, and KeyError is raised exactly when one is missing |
| `Classifier.ReadQueryLocal` | data_sources/lib/intermediate_file_processing.py:75-79 | the classifier reads only test_code, test_result, sex, age and direction |
| `Classifier.ForCode` | data_sources/lib/intermediate_file_processing.py:86-88 | the ranges carrying the code, in list order; none exactly when no range carries it |
| `Classifier.ClassifyNoRef` | data_sources/lib/intermediate_file_processing.py:161-164 | with no range carrying the code, and so with an empty range list, the outcome is ERR_NO_REF_RANGE even for a non-numeric result |
| `Classifier.ClassifyUnparseable` | data_sources/lib/intermediate_file_processing.py:87-92 | with a range carrying the code and a non-numeric result, the outcome is ERR_UNPARSEABLE_RESULT whatever the age, sex or direction |
| `Classifier.ClassifyFirstMatchDecides` | data_sources/lib/intermediate_file_processing.py:86-116 | the first range in list order with the code whose band holds the age decides the outcome |
| `Classifier.ClassifyDiscardedAge` | data_sources/lib/intermediate_file_processing.py:159-160 | when ranges carry the code but no band holds the age, the outcome is ERR_DISCARDED_AGE |
| `Classifier.CacheNeverChangesOutcome` | data_sources/lib/intermediate_file_processing.py:80-82 | a code is cached only when no range carries it, so for a fixed range list the cache never changes an outcome |
| `Classifier.ReclassifyStable` | data_sources/lib/intermediate_file_processing.py:165-166 | classifying the classified row again gives the same row |
| `Classifier.ConvertToResult` | data_sources/lib/intermediate_file_processing.py:51-166 | the loop as written, with its unreachable "sorted" short-circuit, computes the reference definition and the cache update |
| `RangeTables.InsertSorted` | data_sources/lib/intermediate_file_processing.py:35 | inserting into a list sorted by test code keeps it sorted |
| `RangeTables.SortByTestSorted` | data_sources/lib/anonymise.py:23 | `sorted(key=test)` gives a list sorted by test code |
| `RangeTables.SortKeepsCodeOrder` | data_sources/lib/intermediate_file_processing.py:35 | the sort is stable: the ranges of any one code keep their file order |
| `RangeTables.SortChangesNoOutcome` | data_sources/lib/intermediate_file_processing.py:35 | sorting the range list changes no classifier outcome |
| `RangeTables.GetRefRangesChecked` | data_sources/lib/intermediate_file_processing.py:21-39 | the lines come back as a permutation of the CSV when it has a line and exactly the seven columns; otherwise IndexError, KeyError or AssertionError |
| `RangeTables.GetRefRanges` | data_sources/lib/anonymise.py:19-26 | no header check: a permutation of the lines, failing only on a missing "test" column |
| `RangeTables.LoadedRanges` | data_sources/lib/anonymise.py:19-26 | both loaders sort by code, keep each code's file order, and agree when the checked one succeeds |
| `Converter.OldMonthsSkipped` | data_sources/lib/intermediate_file_processing.py:46-48 | with the floor compared as the intended "YYYY/MM/DD" text, a row whose month is "YYYY/MM/01" is dropped exactly when the first of that month lies before the floor date, and is otherwise passed on unchanged; so the floor's own month is dropped unless the floor falls on the 1st |
| `Converter.SkipOldDataAsWritten` | data_sources/lib/intermediate_file_processing.py:46-48 | as written the check never keeps or drops a row: with a month present it raises AttributeError, since DATE_FLOOR is already text |
| `Converter.OutcomeAsWritten` | data_sources/lib/intermediate_file_processing.py:203-209 | with the floor check as written no row is kept; a row stopped by the filter or normaliser fares as with the intended check, and any other row meets the failing floor check |
| `Converter.FeedAsWritten` | data_sources/lib/intermediate_file_processing.py:199-229 | with the floor check as written, a file that does not abort had every row dropped and leaves no header, no lines and an empty month tally |
| `Converter.FloorReachedAborts` | data_sources/lib/intermediate_file_processing.py:46-48 | as written, the first row that gets through the filter and the normaliser with a month aborts the file with AttributeError, where the intended check passes it on when its month is not before the floor |
| `Converter.ProcessRowCache` | data_sources/lib/intermediate_file_processing.py:204-210 | the per-row outcome with a sound cache equals the outcome without one, and the cache stays sound |
| `Converter.FirstFailure` | data_sources/lib/intermediate_file_processing.py:203-229 | the first row whose processing raises, or none |
| `Converter.Survivors` | data_sources/lib/intermediate_file_processing.py:209-212 | exactly the rows no stage dropped |
| `Converter.FirstSurvivorChecked` | data_sources/lib/intermediate_file_processing.py:213-223 | a first surviving row missing a required key aborts the file with AssertionError |
| `Converter.WrittenLinesAreProjections` | data_sources/lib/intermediate_file_processing.py:227-229 | the header is written once, and every written line is a surviving row projected onto REQUIRED_NORMALISED_KEYS, in order |
| `Converter.MostCommon` | data_sources/lib/intermediate_file_processing.py:233 | the month with the largest tally, the first such on ties; IndexError on an empty tally |
| `Converter.FirstMaxUnique` | data_sources/lib/intermediate_file_processing.py:233 | the most common month is well defined |
| `Converter.FeedRows` | data_sources/lib/intermediate_file_processing.py:199-229 | the loop as written, with the cache threaded, computes the declarative file: abort at the first failing row, tally the months of surviving rows below index 1000 |
| `Converter.FeedFrom` | data_sources/lib/intermediate_file_processing.py:203-229 | from any row reached with no failure so far and the state the earlier rows leave, the rest of the loop ends in the declarative file's result and keeps the cache sound |
| `Intermediate.SuffixedInjective` | data_sources/lib/intermediate_file_processing.py:240-245 | different counters give different names |
| `Intermediate.LeastFreeUnique` | data_sources/lib/intermediate_file_processing.py:237-247 | at most one name is the least free one |
| `Intermediate.FreshName` | data_sources/lib/intermediate_file_processing.py:237-247 | the plain name when free, otherwise "_n" with the least free n >= 1 |
| `Intermediate.Place` | data_sources/lib/intermediate_file_processing.py:232-249 | the output is named after the most common month and moved to a name not taken before |
| `Intermediate.NoFileNamedAsWritten` | data_sources/lib/intermediate_file_processing.py:233 | with the floor check as written, a file that gets through the row loop has an empty tally, so naming it fails with IndexError and nothing is placed |
| `Intermediate.PlacedUnique` | data_sources/lib/intermediate_file_processing.py:232-249 | placing a file has one possible outcome |
| `Intermediate.MakeIntermediateFile` | data_sources/lib/intermediate_file_processing.py:169-251 | range loading, the row loop, naming and placing, then the ledger record; on success the name is new and the ledger gains exactly one fresh row |
| `Intermediate.NewAnonymiser` | data_sources/lib/anonymise.py:143-161 | the ranges are the CSV's sorted by code, or none when the path is not a file; the classifier defaults to the standard one |
| `Intermediate.FeedFile` | data_sources/lib/anonymise.py:163-195 | the row loop over the file, returning its most common month; IndexError with no surviving row, TypeError without an iterator |
| `Intermediate.Work` | data_sources/lib/anonymise.py:197-216 | the file is named and placed as the converter does, and the ledger is not touched |
| `Ledger.MarkAsProcessed` | data_sources/lib/intermediate_file_tracking.py:29-39 | IntegrityError exactly when (lab, filename) is recorded, the table then unchanged; otherwise one fresh unmerged row, keeping the index unique |
| `Ledger.MarkAsMerged` | data_sources/lib/intermediate_file_tracking.py:42-52 | exactly the lab's rows with that converted name are stamped; no other row changes |
| `Ledger.GetProcessedFilenames` | data_sources/lib/intermediate_file_tracking.py:55-61 | exactly the lab's recorded source names |
| `Ledger.GetUnmergedFilenames` | data_sources/lib/intermediate_file_tracking.py:64-74 | exactly the lab's (source, converted) pairs not yet merged |
| `Ledger.ResetLab` | data_sources/lib/intermediate_file_tracking.py:77-81 | every row of the lab is deleted, and every other row kept |
| `Ledger.FreshEntryListed` | data_sources/lib/intermediate_file_tracking.py:29-74 | a freshly recorded file is listed as processed and as unmerged |
| `Ledger.MergeKeepsProcessed` | data_sources/lib/intermediate_file_tracking.py:42-61 | merging never changes any lab's processed list |
| `Ledger.MergeRemovesFromUnmerged` | data_sources/lib/intermediate_file_tracking.py:42-74 | merging removes exactly that file's pairs from the lab's unmerged list |
| `Ledger.MergeTwice` | data_sources/lib/intermediate_file_tracking.py:42-52 | a second merge of the same file leaves the unmerged list as the first left it |
| `Ledger.MergeKeepsUnique` | data_sources/lib/intermediate_file_tracking.py:23 | merging keeps the unique index |
| `Ledger.ResetForgetsLab` | data_sources/lib/intermediate_file_tracking.py:77-81 | after a reset the lab has no processed files and each can be recorded again; other labs are unchanged |
| `Merge.ReadAll` | lib/whole_file_processing.py:54-57 | the concatenated unmerged files; FileNotFoundError exactly when one is missing |
| `Merge.Latest` | lib/whole_file_processing.py:78-79 | the latest month is one that occurs, and no month sorts after it |
| `Merge.Guard` | lib/whole_file_processing.py:74-94 | a missing month aborts first; a passing guard gives the existing rows followed by the new ones |
| `Merge.GuardPasses` | lib/whole_file_processing.py:78-94 | the guard passes exactly when 5 times the new rows in the latest month is below that month's old count |
| `Merge.ReappendAborts` | lib/whole_file_processing.py:86-94 | re-appending a full copy of the latest month always aborts |
| `Merge.EarlierMonthsPass` | data_sources/lib/whole_file_processing.py:113-130 | new rows confined to earlier months always pass |
| `Merge.Combine` | lib/whole_file_processing.py:95-97 | with no combined file the new rows are adopted unchecked |
| `Merge.MarkingAllLeavesNone` | lib/whole_file_processing.py:102-103 | marking every unmerged file leaves none unmerged |
| `Merge.Consume` | data_sources/lib/whole_file_processing.py:137-139 | each file is marked merged and deleted; nothing else on disk changes |
| `Merge.CombineAndAppend` | lib/whole_file_processing.py:44-112 | a failed read or guard changes nothing; without unmerged files nothing is written or marked; otherwise the combined file is written before each file is marked merged and deleted |
| `TestCodes.Shown` | lib/whole_file_processing.py:127 | exactly the sheet rows flagged show_in_app? |
| `TestCodes.Blank` | lib/whole_file_processing.py:130-131 | an alias equal to its own canonical code becomes "_DONTJOIN_", and nothing else changes |
| `TestCodes.BuildMapping` | lib/whole_file_processing.py:120-141 | ValueError exactly on a duplicated canonical code or test name; otherwise the shown rows, blanked, on the alias and canonical columns |
| `TestCodes.GetTestCodes` | lib/whole_file_processing.py:115-143 | KeyError for a lab without an entry, the empty mapping for a lab without alias columns |
| `TestCodes.GetTestCodesLegacy` | data_sources/lib/whole_file_processing.py:157-186 | no empty-mapping shortcut: the mapping is always built |
| `TestCodes.GetTestCodesVariants` | data_sources/lib/whole_file_processing.py:149-186 | the two trees differ only for cambridge, and both fail for exeter |
| `TestCodes.ExpandShape` | lib/whole_file_processing.py:165-175 | a row matching k columns appears k times, with only its code rewritten to the canonical one |
| `TestCodes.JoinAllRowwise` | lib/whole_file_processing.py:165-176 | the column-by-column joins contain, as a multiset, each row's own matches |
| `TestCodes.NormaliseTestCodes` | lib/whole_file_processing.py:146-178 | the input unchanged for an empty mapping, otherwise the joins; the lookup's errors pass through |
| `TestCodes.NormaliseTestCodesLegacy` | data_sources/lib/whole_file_processing.py:189-215 | always the joins, on the aliases and then the canonical column |
| `TestCodes.CanonicalOnly` | data_sources/lib/whole_file_processing.py:207-215 | without alias columns only rows whose code is already canonical survive, unchanged |
| `Aggregate.Suppress` | lib/whole_file_processing.py:266-268 | a count is suppressed exactly when below SUPPRESS_UNDER |
| `Aggregate.AggregatedCounts` | lib/whole_file_processing.py:256-273 | one line per observed group with its lab; the true count lies within the error bar; the bar is 2 exactly on suppressed groups; other counts are exact |
| `Aggregate.AggregatedTotal` | lib/whole_file_processing.py:258-265 | the group counts add up to the records that have a month and a category |
| `Aggregate.TrimTrailingMonths` | lib/whole_file_processing.py:191-197 | exactly the lines of months whose total is above 5% of the largest monthly total, unchanged |
| `Aggregate.TrimKeepsBusiestMonth` | lib/whole_file_processing.py:195-197 | the busiest month survives trimming |
| `Aggregate.TrimKeepsMax` | data_sources/lib/whole_file_processing.py:228-234 | trimming keeps the largest monthly total |
| `Aggregate.TrimIdempotent` | lib/whole_file_processing.py:191-197 | trimming twice equals trimming once |
| `Aggregate.AddPracticeMetadata` | lib/whole_file_processing.py:222-236 | ValueError exactly when a month cell cannot be read (a missing one is NaT instead); otherwise exactly the pairs matching on month and practice, where NaT matches only NaT |
| `Aggregate.Summarise` | lib/whole_file_processing.py:256-279 | None exactly for an empty dataset; ValueError exactly when a practice month, or the month of a line in a kept month, cannot be read; every written line belongs to an observed group of the lab, lies within its error bar, is in a kept month and matches a practice; and every line of a kept month appears joined with each practice row it matches |
| `Aggregate.TrimUnparseable` | lib/whole_file_processing.py:274-275 | the trimmed lines hold an unreadable month exactly when some line of a kept month does |
| `Aggregate.TrimJoinSound` | lib/whole_file_processing.py:274-275 | each joined line of the trim is an aggregated line of a kept month, next to a practice row of its practice and month |
| `Aggregate.TrimJoinComplete` | lib/whole_file_processing.py:274-275 | each aggregated line of a kept month is joined with every practice row it matches |
| `Aggregate.NormaliseAndSuppress` | lib/whole_file_processing.py:239-279 | normalisation's errors pass through; None exactly when the normalised dataset is empty |
| `Aggregate.NormaliseAndSuppressLegacy` | data_sources/lib/whole_file_processing.py:276-313 | the same over the older normalisation and the practice join of lines 259-273 |
| `Aggregate.CambridgeUnnormalised` | lib/whole_file_processing.py:157-158 | a lab without alias columns is aggregated as merged |
| `Pipeline.OwnFilesMatch` | lib/file_processing.py:49-51 | the reset pattern matches the lab's converted, combined and processed files |
| `Pipeline.Reset` | lib/file_processing.py:44-53 | the lab's ledger rows and every file under the pattern are deleted; nothing else changes |
| `Pipeline.ResetClearsLab` | lib/file_processing.py:44-58 | after a reset the lab has nothing processed, so every supplied file is work; other labs are untouched |
| `Pipeline.Work` | lib/file_processing.py:56-58 | the supplied files the ledger has not recorded for the lab |
| `Pipeline.ConvertAll` | lib/file_processing.py:73-74 | every file of the work is converted and recorded before the merge; nothing recorded is lost |
| `Pipeline.MakeFinalCsv` | lib/whole_file_processing.py:282-290 | the final output gathers the processed files, which are removed |
| `Pipeline.Finish` | lib/file_processing.py:75-81 | merge, aggregate, gather; on success the combined file is the old one with every unmerged file appended; "Final data at" exactly when aggregation wrote something |
| `Pipeline.RunLab` | lib/file_processing.py:59-81 | with work: convert all of it, then merge; afterwards nothing is unmerged for the lab, and the combined file is the old one with new rows appended |
| `Pipeline.Run` | lib/file_processing.py:36-83 | a declined reimport does nothing; "Nothing to do" exactly for empty work, changing nothing; a completed run leaves no work for the same list |
| `Pipeline.ProcessFiles` | lib/file_processing.py:18-83 | reimport goes ahead with --yes or "y"; the outcome of `Run` for the newer tree |
| `Pipeline.ProcessFilesLegacy` | data_sources/lib/runner.py:43-95 | reimport always asks and goes ahead only on "y"; the merge uses the older aggregation; each file is converted through `process_file` as corrected (see Findings) |
| `Pipeline.ProcessFileAsWritten` | data_sources/lib/runner.py:21-40 | a successful conversion is followed by a second record of the same file, so the call always fails |
| `Pipeline.RecordTwiceFails` | data_sources/lib/intermediate_file_tracking.py:23-39 | recording a file right after recording it raises IntegrityError |
| `Pipeline.ProcessFile` | data_sources/lib/runner.py:21-40 | as intended: a successful conversion leaves the file recorded once, as unmerged |
| `Labs.ReadResult` | data_sources/plymouth/anonymiser_config.py:76-92 | a leading "<" or ">" sets the direction even when the rest does not parse, and the raw text is then kept |
| `Labs.StandardKeepsColumns` | data_sources/lib/intermediate_file_processing.py:165-166 | the standard classifier only adds result_category to a normalised row |
| `Labs.AdultBornBefore` | data_sources/north_devon/anonymiser_config.py:106-108 | an age of at least 18 years of 365 days puts the birth day before the collection day |
| `Labs.ObjectStyleAborts` | data_sources/north_devon/anonymiser_config.py:63-73 | a rule set reading `row_anonymiser.row` aborts every non-empty file on its first row |
| `Labs.ForeignDropAborts` | data_sources/cornwall/anonymiser_config.py:10 | a filter raising another module's StopProcessing aborts the file instead of dropping the row |
| `Labs.ForeignChangesOnlyDrops` | data_sources/cornwall/anonymiser_config.py:10 | rows no callback drops are treated the same under either StopProcessing |
| `Plymouth.Drop` | data_sources/plymouth/anonymiser_config.py:45-54 | dropped on an empty date or an age string below "18" in string order |
| `Plymouth.Normalise` | data_sources/plymouth/anonymiser_config.py:57-107 | the record has exactly the eight columns, with age and sex blank; an unparseable date skips |
| `Plymouth.Bounds` | data_sources/plymouth/anonymiser_config.py:123 | two numbers exactly when the text splits on "{" into two parseable parts |
| `Plymouth.Category` | data_sources/plymouth/anonymiser_config.py:110-162 | an empty range first gives ERR_NO_REF_RANGE; a bad range ERR_INVALID_REF_RANGE before the result is looked at; a zero high bound ERR_INVALID_REF_RANGE; otherwise the standard direction rules |
| `Plymouth.KeptRowsComplete` | data_sources/plymouth/anonymiser_config.py:57-162 | every kept row carries the four required keys and a result_category that is one of the category codes |
| `Cambridge.Drop` | data_sources/cambridge/anonymiser_config.py:42-54 | dropped on an empty date, or an empty age or one below "18" in string order |
| `Cambridge.PracticeCode` | data_sources/cambridge/anonymiser_config.py:57 | a code of one capital and five digits in parentheses, followed only by digits up to ")" |
| `Cambridge.PracticeCodeLastWins` | data_sources/cambridge/anonymiser_config.py:57 | with several such groups the greedy prefix makes the last one win |
| `Cambridge.Normalise` | data_sources/cambridge/anonymiser_config.py:60-116 | the record carries the lab's own flag as result_category; no practice code skips the row |
| `Cambridge.Verdict` | data_sources/cambridge/anonymiser_config.py:131-142 | High or High Critical is over, Low or Low Critical under, Normal within, "" no range, any other flag None |
| `Cambridge.Classify` | data_sources/cambridge/anonymiser_config.py:119-142 | a non-numeric result is unparseable before the flag is read |
| `Cambridge.KeptRowsComplete` | data_sources/cambridge/anonymiser_config.py:60-142 | every kept row carries the required keys and a test_result, and a kept numeric result's category is the lab's own flag for it |
| `Exeter.Drop` | data_sources/exeter/anonymiser_config.py:76-85 | dropped when the first two characters of the age sort below "18", or the organisation mentions "Hospital" |
| `Exeter.Normalise` | data_sources/exeter/anonymiser_config.py:88-124 | as intended: the eight columns with blanks, and an unparseable date skips |
| `Exeter.AsWrittenDiffers` | data_sources/exeter/anonymiser_config.py:96-102 | the code as written differs exactly on an unparseable date, where it raises UnboundLocalError |
| `Exeter.UnparsedDateAborts` | data_sources/exeter/anonymiser_config.py:96-102 | a kept first row with an unparseable date aborts the file as written |
| `Exeter.Flag` | data_sources/exeter/anonymiser_config.py:127-141 | H over, L under, N within, anything else no range |
| `Exeter.Classify` | data_sources/exeter/anonymiser_config.py:127-141 | the ranges are ignored and only result_category is written |
| `Exeter.KeptRowsComplete` | data_sources/exeter/anonymiser_config.py:88-141 | every kept row carries the required keys, and its category is the code of the row's own Test_Result_Range flag |
| `NorthDevon.Drop` | data_sources/north_devon/anonymiser_config.py:63-73 | dropped when dob is "None" or "", or the category is neither GP nor ZE |
| `NorthDevon.Current` | data_sources/north_devon/anonymiser_config.py:87-98 | the seven legacy codes are renamed and all others kept |
| `NorthDevon.CurrentIdempotent` | data_sources/north_devon/anonymiser_config.py:87-98 | no target is itself renamed, so renaming twice equals renaming once |
| `NorthDevon.ParseFirstEarliest` | data_sources/north_devon/anonymiser_config.py:50-57 | the first format that reads the text decides |
| `NorthDevon.Past` | data_sources/north_devon/anonymiser_config.py:58-60 | a date after today is moved back 100 years |
| `NorthDevon.MonthNamesNeverTried` | data_sources/north_devon/anonymiser_config.py:49-60 | the helper as written fails on a month-name date that the intended helper reads |
| `NorthDevon.NormaliseWith` | data_sources/north_devon/anonymiser_config.py:76-138 | a kept row is an adult's, with the renamed code, the practice from source and the parsed result; a bad dob raises |
| `NorthDevon.MonthNameBirthDateAborts` | data_sources/north_devon/anonymiser_config.py:99-103 | a kept first row with a month-name dob aborts the file as written |
| `NorthDevon.KeptRowsAdult` | data_sources/north_devon/anonymiser_config.py:106-108 | every kept row is complete and an adult's |
| `Cornwall.Drop` | data_sources/cornwall/anonymiser_config.py:30-38 | dropped on an empty dob or a specialty other than 600 or 180 |
| `Cornwall.MatchAtComplete` | data_sources/cornwall/anonymiser_config.py:53 | the regex matcher finds the leftmost-longest match |
| `Cornwall.ValueAndPercent` | data_sources/cornwall/anonymiser_config.py:53-54 | "a b%" becomes "a" as intended, and only a's last character as written |
| `Cornwall.TypicalCell` | data_sources/cornwall/anonymiser_config.py:52-54 | "0.03 0.5%" becomes "0.03" as intended and "3" as written |
| `Cornwall.NormaliseWith` | data_sources/cornwall/anonymiser_config.py:41-92 | a kept row has the seven columns, a parsed dob, an age of at least 18 and the order month; an unparseable order date raises |
| `Cornwall.DroppedRowAborts` | data_sources/cornwall/anonymiser_config.py:10-38 | as imported, a dropped first row aborts the file |
| `Cornwall.KeptRowsAdult` | data_sources/cornwall/anonymiser_config.py:55-65 | every kept row is complete and an adult's |

## Left out

- I/O: files, CSV and zip reading and writing, tempfiles, `os.rename`, `os.remove` and `glob`. Files are maps from names to rows, and a directory is a set of names.
- The SQLite engine and table setup. The ledger is a sequence of rows with the unique index as a predicate.
- Network fetches (`lib/fetchers.py`, `get_practices`, the online branch of the older `_get_test_codes`). The practice table and the test-code sheet are parameters.
- The multiprocessing `Pool`. Only the sequential loop is modelled, and `NO_REF_RANGES` is one cache passed along.
- `float()`, `strptime`, `pd.to_datetime` and `date.today()`. They are parameters. The first two give `None` where the library raises `ValueError`. `pd.to_datetime` gives a date, `NaT` or an unreadable cell. Numbers are reals: there is no floating-point rounding, and ages in days over 365 are taken as given.
- The row iterators of the lab configurations, and `row_iterator` file decoding.
- Logging, `report_oddness`, the CLI (`runner.py`, `data_sources/runner.py`), `lib/postprocess.py`, the range generators, the synthetic-data generator, and the standalone `nd_anon.py` and `cornwall_anon.py`.
- pandas categorical types. Only their effect is kept: a month or category outside the categories reads as missing.
- The converter and ledger of the newer tree. `lib/intermediate_file_processing.py` and `lib/intermediate_file_tracking.py` are not part of this model. The older tree's modules stand in for them, and `Pipeline.ConvertAll` takes the conversion as the older converter.
- `lib/file_processing.py:60-68`: `partial` binds the lab and range path where the older converter expects the file name first. Since the newer converter is not part of this model, the arguments are taken as intended.
- Merge.CombineAndAppend: the line `existing[existing["month"] != settings.DATE_FLOOR]` at lib/whole_file_processing.py:68 compares month text with a date. It removes nothing, so it is not modelled.
- Merge.CombineAndAppend: the categorical recasting of practice_id and test_code (lines 108-111) is left out.
- Converter.FeedRows: the CSV text written is not modelled. A written line is the list of projected fields.
- Converter.SkipOldData: the floor check compares the month with DATE_FLOOR's text, as intended. As written, `settings.DATE_FLOOR.strftime` raises AttributeError, because DATE_FLOOR is already a string (data_sources/lib/settings.py:41). This is listed under Findings. The row loop, `Intermediate.MakeIntermediateFile`, the `Anonymiser` and the pipeline all use the intended check.
- Classifier.ConvertToResult: follows the intended comparison. As written, a marked result inside a band not open on its side raises TypeError (data_sources/lib/intermediate_file_processing.py:146-151, data_sources/lib/anonymise.py:119-124). This is listed under Findings.
- Pipeline.ProcessFilesLegacy: each file goes through `process_file` as corrected (see Findings). As written, the first successful conversion raises IntegrityError at data_sources/lib/runner.py:39, so `process_files` stops before `combine_and_append_csvs`.
- Aggregate.AddPracticeMetadata: which cells `pd.to_datetime` reads as NaT (the empty ones) is up to the parser parameter. The practice table's columns beyond month, practice, CCG, name and list size are not carried.
- Labs.ObjectStyleAborts: Plymouth, Cambridge and North Devon use the older `row_anonymiser.row` interface. As handed a dict they fail on the first row, which this lemma states. Their rule models work over a plain record, as the rules intend.
- Cornwall.NormaliseWith: the seconds of the order date and the `%m-%Y` dob format are inside the date parser parameter.

## Findings

| source | as written | input that shows it | evidently intended | confidence | as-written member | corrected member |
|---|---|---|---|---|---|---|
| data_sources/lib/runner.py:31-40 | `process_file` records the source file after `make_intermediate_file` has already recorded it (data_sources/lib/intermediate_file_processing.py:250), so the unique index rejects the second insert | any file that converts successfully | one record per converted file | high, not executed | `Pipeline.ProcessFileAsWritten` | `Pipeline.ProcessFile` |
| data_sources/north_devon/anonymiser_config.py:50-57 | the sibling `except ValueError` clauses never catch an error raised inside the first handler, so the "%d %b" formats are never tried | a dob of "05 Mar 1960" | try the four formats in turn | high, not executed | `NorthDevon.MonthNameBirthDateAborts` | `NorthDevon.MonthNamesNeverTried` |
| data_sources/exeter/anonymiser_config.py:96-102 | the handler logs `order_date`, which is unbound there, so UnboundLocalError escapes instead of StopProcessing | a Date_Specimen_Collected of "unknown" | skip the row | high, not executed | `Exeter.UnparsedDateAborts` | `Exeter.Normalise` |
| data_sources/lib/intermediate_file_processing.py:46-48 | `skip_old_data` calls `.strftime` on `settings.DATE_FLOOR`, which data_sources/lib/settings.py:41 already makes a "YYYY/MM/DD" string, so it raises AttributeError; data_sources/lib/anonymise.py:36-38 has the same line | any row that passes the filter and the normaliser: the file aborts, and a file where every row drops fails naming with IndexError, so no file converts | compare the month with the floor text | high, not executed | `Converter.FloorReachedAborts` | `Converter.OldMonthsSkipped` |
| data_sources/lib/intermediate_file_processing.py:146-151 | the warning for a marked result inside a band leaves out `row`, so `log_warning` (lib/logger.py:19-26, standing in for data_sources/lib/logger.py, which is not part of this model) appends " %s " to the float lower bound and raises TypeError; data_sources/lib/anonymise.py:119-124 has the same call | test result "<5" with direction "<" against bounds 0.5 and 10 | log the warning and return ERR_INVALID_RANGE_WITH_DIRECTION | medium, not executed | `Classifier.CompareAsWritten` | `Classifier.CompareDirection` |
| data_sources/cornwall/anonymiser_config.py:53-54 | the repeated group `([0-9.])+` captures one character, so `\1` keeps only the last character of the number | "0.03 0.5%" becomes "3" | keep the whole leading number, "0.03" | high, not executed | `Cornwall.TypicalCell` | `Cornwall.ValueAndPercent` |
