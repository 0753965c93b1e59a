# SiPM tray quality control: a verified model of the data reader and the analysis core

This project models the data handling of the Yale LFHCal SiPM quality-control macros in Dafny.
A test station measures trays of 460 SiPMs (20 rows by 23 columns) in two ways:

- an IV scan gives the peak voltage, dark currents and temperatures of each SiPM;
- an SPS fit gives the breakdown voltage and fit details of each SiPM.

Each tray has one result file per method. The macros:

- read a batch manifest listing the trays;
- ingest the result files into per-tray records whose missing or failed SiPMs hold the sentinel -999;
- compute tray and batch statistics;
- order and group the trays for the batch summary sheet;
- analyse how reproducible repeated measurements of the same tray are;
- pick out the trays of an operating-voltage scan.

Modules, one per file:

- `Config` (config.dfy): the grid dimensions, the test-set layout (15 sets of 32 cassette slots), the sentinel and the 50 mV outlier band.
- `Numeric` (numeric.dfy): the C++ failures the source can raise (`std::invalid_argument`, `std::out_of_range`, undefined indexing) as a `Result` type. A `Double` type with the NaN and infinities of IEEE division by zero. C++ truncating division.
- `Text` (text.dfy): `std::getline` token splitting (including the stale token a failing call leaves), `std::stoi` and `std::stof` on decimal text, and `std::string::compare`.
- `Records` (records.dfy): the IV and SPS records of one tray, the decoding of a data line and of a SiPM identifier, and the record a file's lines build.
- `Manifest` (manifest.dfy): the manifest filter (tray names start after the first `$` line; `#` lines are comments), the data directory layout, and tray validation. The file system is a map from paths to directories or files given by their lines.
- `Reader` (reader.dfy): the class `SiPMDataReader` with its tray list and per-tray record lists, its loaders, its indexed accessors, the test-set coordinate maps and the condensed output file.
- `Statistics` (stats.dfy): the helper statistics. Each accumulator loop is a method proved equal to a recursive function; the properties of those functions are lemmas.
- `BatchSummary` (batch_summary.dfy): the alphabetical reshuffle index (a selection sort over an index array), batch delimiters and labels, the nominal-data tokenizer and matching, and the 15 x 32 test-map layout.
- `Systematics` (systematics.dfy): the gathering of repeated measurements of a base tray, the repeated-set mask, the per-slot sentinel-aware averaging and spread, and the V_op scan tray selection with voltage decoding.

Behaviour the model reproduces on purpose, because the source behaves that way:

- The all-tray averages divide the sum of the measured values by the number of measured raw IV peak voltages, whichever column was summed.
- The outlier count compares every entry, sentinels included, with the band around the average.
- `countOutliersVbreakdown` with index -1, or any index outside the trays, counts over all trays at 25 C whatever flag was passed.
- The mismatch check of the repeated-set gathering advances the tray counter once per mismatching set. That can shift later indices away from the trays they stood for (`Systematics.Recheck`).
- Every slot's average divides by the number of trays counted at slot 0.
- The reproducibility spread is the sum of squared deviations. It is not divided by the count.
- A SiPM identifier's last two `_` tokens are its column and its row. `TRAY01_0_3` is therefore column 0, row 3, index 3*23 + 0 = 69 (`Records.ExampleIndex`).
- An all-sentinel tray makes the per-tray mean 0/0. The model carries that as NaN instead of excluding such trays by a precondition.

## Model

| member | source | states |
|---|---|---|
| Numeric.VectorAt | src/SiPMDataReader.hpp:331-332 | `std::vector::at` succeeds exactly inside the vector, returns that element, and throws `std::out_of_range` otherwise |
| Numeric.CMod | src/SiPMDataReader.hpp:321-327 | C++ `/` and `%`: quotient and remainder recompose the dividend, the remainder has the dividend's sign and lies within the divisor |
| Numeric.DivModUnique | src/SiPMDataReader.hpp:321-327 | for a non-negative dividend, C++ quotient and remainder are the unique pair with 0 <= r < b |
| Numeric.Collect | src/SiPMDataReader.hpp:373-497 | running per-tray loads in order keeps the values before the first failure and reports that failure; with no failure every value is kept |
| Numeric.CollectFailed | src/SiPMDataReader.hpp:373-497 | once a load has failed, later trays change nothing |
| Text.IndexOf | src/SiPMDataReader.hpp:433 | the position found holds the delimiter and no earlier position does |
| Text.Tokens | src/SiPMDataReader.hpp:433 | repeated `getline` on a delimiter delivers tokens free of the delimiter, and some token exactly when the text is non-empty |
| Text.TokensJoin | src/SiPMDataReader.hpp:433 | rejoining the tokens with the delimiter gives back the text, up to a final delimiter |
| Text.TokensPieces | src/SiPMDataReader.hpp:433 | `getline` delivers every delimited piece except a trailing empty one |
| Text.PiecesAppend | src/SiPMDataReader.hpp:433 | splitting two texts joined by the delimiter splits each of them |
| Text.PiecesSingle | src/SiPMDataReader.hpp:433 | a delimiter-free text is a single piece |
| Text.SkipSpace | src/SiPMDataReader.hpp:435-436 | the conversion starts at the first non-space character, a suffix of the text |
| Text.DigitRun | src/SiPMDataReader.hpp:435-436 | the digits read are the longest run of decimal digits at the start |
| Text.Dec | src/systematic_analysis_summary.cpp:607 | the decimal text of a number is non-empty, all digits, one or two characters below 10 and 100 |
| Text.DigitsValueDec | src/systematic_analysis_summary.cpp:607 | the digits of a number's decimal text read back as that number |
| Text.StoiDec | src/SiPMDataReader.hpp:435-436 | `std::stoi` reads back the decimal text of every int |
| Text.PrefixEqualsStartsWith | src/systematic_analysis_summary.cpp:282 | `substr(0, n).compare(p) == 0` with n = size of p holds exactly when p is a prefix |
| Text.Compare | src/sipm_batch_summary_sheet.cpp:500 | `std::string::compare` yields a sign |
| Text.CompareZero | src/systematic_analysis_summary.cpp:267 | only equal strings compare equal |
| Text.CompareFlip | src/sipm_batch_summary_sheet.cpp:500 | swapping the operands flips the sign |
| Text.CompareTransitive | src/sipm_batch_summary_sheet.cpp:500 | compare-at-most is transitive, so the sort key is a total preorder |
| Records.EmptyIV | src/SiPMDataReader.hpp:400-413 | the prefilled IV arrays cover all 460 positions, each holding the sentinel, and the tray note is empty |
| Records.EmptySPS | src/SiPMDataReader.hpp:541-556 | the prefilled SPS arrays cover all 460 positions, each holding the sentinel, and the tray note is empty |
| Records.ParseIndex | src/SiPMDataReader.hpp:430-439 | a decoded identifier lands at row*23 + col, inside the tray |
| Records.Fields | src/SiPMDataReader.hpp:441-463 | the fields of a line are the successive `getline` results on ' ' |
| Records.StofAll | src/SiPMDataReader.hpp:441-463 | when no conversion throws, every field converts to the stored value |
| Records.ParseIVLine | src/SiPMDataReader.hpp:422-463 | a decoded IV line lands inside the tray and carries its first field as note |
| Records.ParseSPSLine | src/SiPMDataReader.hpp:563-613 | a decoded SPS line lands inside the tray and carries its identifier |
| Records.ApplyIV | src/SiPMDataReader.hpp:437-463 | storing an IV line writes its values at its position and nothing else; only the first data line sets the tray note, to the line's first field |
| Records.ApplySPS | src/SiPMDataReader.hpp:574-613 | storing an SPS line writes its values at its position and nothing else; only the first data line sets the tray note, to the identifier without its row and column suffix |
| Records.IVRecordExt | src/SiPMDataReader.hpp:474-486 | two IV records agreeing on the note and at every position are equal |
| Records.SPSRecordExt | src/SiPMDataReader.hpp:627-642 | two SPS records agreeing on the note and at every position are equal |
| Records.BuildIVSucceeds | src/SiPMDataReader.hpp:421-476 | an IV file is read to its end exactly when every data line decodes |
| Records.BuildIVFailure | src/SiPMDataReader.hpp:421-476 | a failed read fails with the error of the first line that does not decode |
| Records.IVLastWriterWins | src/SiPMDataReader.hpp:437-463 | each position holds the values of the last line that decodes to it, or the sentinel |
| Records.IVNoteFromFirstLine | src/SiPMDataReader.hpp:425-426 | the IV tray note is the first field of the first data line |
| Records.BuildSPSSucceeds | src/SiPMDataReader.hpp:562-613 | an SPS file is read to its end exactly when every line decodes |
| Records.BuildSPSFailure | src/SiPMDataReader.hpp:562-613 | a failed read fails with the error of the first line that does not decode |
| Records.SPSLastWriterWins | src/SiPMDataReader.hpp:574-613 | each position holds the values of the last line that decodes to it, or the sentinel |
| Records.SPSNoteFromFirstLine | src/SiPMDataReader.hpp:581-585 | the SPS tray note comes from the identifier of the first line |
| Records.TokensOfSiPMId | src/SiPMDataReader.hpp:433-436 | the last two `_` tokens of a written identifier are its column and row |
| Records.ParseIndexSiPMId | src/SiPMDataReader.hpp:433-439 | a written identifier decodes back to its row, column and row*23 + col |
| Records.SPSNoteSiPMId | src/SiPMDataReader.hpp:581-583 | for one- and two-digit numbers the suffix length guess strips exactly "_col_row" |
| Records.ExampleIndex | src/SiPMDataReader.hpp:435-437 | "TRAY01_0_3" is column 0, row 3, index 69 |
| Manifest.Lines | src/SiPMDataReader.hpp:104-109 | a missing path reads as no lines |
| Manifest.StartLine | src/SiPMDataReader.hpp:111-115 | the start marker is the first line whose first character is '$' |
| Manifest.DropCommentsMembers | src/SiPMDataReader.hpp:117 | exactly the lines not starting with '#' survive |
| Manifest.BatchListMembers | src/SiPMDataReader.hpp:108-126 | a name is listed exactly when it is a non-comment line after the first '$' line |
| Manifest.NoStartNoTrays | src/SiPMDataReader.hpp:111-115 | a manifest without a '$' line lists no tray |
| Manifest.SelectValidMembers | src/SiPMDataReader.hpp:145-160 | exactly the usable trays are selected |
| Manifest.AfterValidationMembers | src/SiPMDataReader.hpp:162-192 | with no usable tray the list is kept whole; otherwise exactly its usable trays remain |
| Manifest.AllValidKept | src/SiPMDataReader.hpp:162-198 | when every tray is usable the list is unchanged, order included |
| Manifest.ListedAll | src/SiPMDataReader.hpp:109-126 | the line loop's list after the last line is the manifest's batch list |
| Manifest.ValidationOfNothing | src/SiPMDataReader.hpp:129-133 | an empty tray list stays empty |
| Reader.ReadTrayIV | src/SiPMDataReader.hpp:400-476 | the array-filling read of one IV file returns the record its lines define (header skipped) |
| Reader.ReadTraySPS | src/SiPMDataReader.hpp:541-613 | the array-filling read of one SPS file returns the record its lines define |
| Reader.IVResults | src/SiPMDataReader.hpp:373-381 | one IV outcome per tray, in tray order, each the reading of that tray's IV file |
| Reader.SPSResults | src/SiPMDataReader.hpp:513-518 | one SPS outcome per tray, in tray order, each the reading of that tray's SPS file |
| Reader.TrayIndexFromTestIndex | src/SiPMDataReader.hpp:321-323 | row and column recompose the slot's flat index 32*set + slot, with the column in 0..22 |
| Reader.TestIndexFromTrayIndex | src/SiPMDataReader.hpp:325-327 | set and slot recompose the position's flat index 23*row + col, with the slot in 0..31 |
| Reader.TestTrayRoundTrip | src/SiPMDataReader.hpp:321-327 | slot to position and back gives the same slot |
| Reader.TrayTestRoundTrip | src/SiPMDataReader.hpp:321-327 | position to slot and back gives the same position |
| Reader.SkipsTrayAsWritten | src/SiPMDataReader.hpp:656 | the written guard skips only indices strictly beyond the list size, read as unsigned |
| Reader.AsWrittenGuardAdmitsEnd | src/SiPMDataReader.hpp:656-659 | the written guard lets the index equal to the list size through, and the write then throws at the tray-name lookup |
| Reader.CondensedTargetAsWritten | src/SiPMDataReader.hpp:656-659 | the written guard followed by the tray-name lookup: an output path is produced only for a listed tray, and it is that tray's condensed path |
| Reader.GuardedLookupInRange | src/SiPMDataReader.hpp:656-659 | the intended guard lets through exactly the indices whose lookup succeeds |
| Reader.ListTrays | src/SiPMDataReader.hpp:108-126 | the manifest loop returns the non-comment lines after the first '$' line |
| Reader.ValidateTrays | src/SiPMDataReader.hpp:138-200 | validation keeps the usable trays, or the whole list when none is usable |
| Reader.SiPMDataReader.constructor | src/SiPMDataReader.hpp:255-270 | an empty reader with results expected under "-results" |
| Reader.SiPMDataReader.FromFile | src/SiPMDataReader.hpp:272-288 | the reader holds the validated batch list of the manifest and no data |
| Reader.SiPMDataReader.GetBatchStrings | src/SiPMDataReader.hpp:102-203 | the listed trays are appended to the tray list and the whole list is validated; nothing else changes |
| Reader.SiPMDataReader.ReadFile | src/SiPMDataReader.hpp:307-314 | trays and data are cleared and the new manifest's validated list is read |
| Reader.SiPMDataReader.AppendFile | src/SiPMDataReader.hpp:316-319 | the new manifest's trays are added to the old list before validation; the data stays |
| Reader.SiPMDataReader.SetSystematicMode | src/SiPMDataReader.hpp:298 | sets the systematics flag and nothing else |
| Reader.SiPMDataReader.SetFlatTrayString | src/SiPMDataReader.hpp:299 | results are looked for without "-results"; nothing else changes |
| Reader.SiPMDataReader.SetDefTrayString | src/SiPMDataReader.hpp:300 | results are looked for under "-results"; nothing else changes |
| Reader.SiPMDataReader.ReadDataIV | src/SiPMDataReader.hpp:366-497 | the IV records are those of the trays before the first failing file, whose failure is returned; all trays are read exactly when nothing fails |
| Reader.SiPMDataReader.ReadDataSPS | src/SiPMDataReader.hpp:508-650 | the SPS records are those of the trays before the first failing file, whose failure is returned; all trays are read exactly when nothing fails |
| Reader.SiPMDataReader.GetVbdTrayIndexIV | src/SiPMDataReader.hpp:329-333 | succeeds exactly for a read tray and a flat index 23*row + col inside the selected column, and returns that entry; otherwise `std::out_of_range` |
| Reader.SiPMDataReader.GetVbdTestIndexIV | src/SiPMDataReader.hpp:335-339 | the same at the flat index 32*set + slot |
| Reader.SiPMDataReader.GetVbdTrayIndexSPS | src/SiPMDataReader.hpp:341-345 | succeeds exactly for a read tray and a flat index 23*row + col inside the selected column, and returns that entry |
| Reader.SiPMDataReader.GetVbdTestIndexSPS | src/SiPMDataReader.hpp:347-351 | the same at the flat index 32*set + slot |
| Reader.SiPMDataReader.HasSet | src/SiPMDataReader.hpp:353-355 | a set was measured exactly when the raw IV peak of its first slot is not -999; out-of-range lookups throw |
| Reader.SiPMDataReader.TestAndTrayIndexAgree | src/SiPMDataReader.hpp:321-351 | asking by slot and by that slot's tray position gives the same answer |
| Reader.SiPMDataReader.ValidLookups | src/SiPMDataReader.hpp:329-351 | on a read tray every grid position can be asked for, by position or by slot |
| Reader.SiPMDataReader.HasSetFirstSlot | src/SiPMDataReader.hpp:353-355 | `HasSet` answers exactly what slot 0 of the set holds in the raw IV column |
| Reader.SiPMDataReader.WriteCompressedFile | src/SiPMDataReader.hpp:655-674 | with the corrected guard of the first Findings row, outside the tray list nothing is written (the source throws at the index equal to the list size); an unread tray throws; otherwise one row per position, the SPS breakdown voltage then the IV peak |
| Reader.SiPMDataReader.ValidTrayIsWritten | src/SiPMDataReader.hpp:663-671 | a read tray within the list has 460 rows of both values |
| Statistics.ValidCount | src/sipm_analysis_helper.hpp:75-86 | the measured entries are at most the entries |
| Statistics.OutlierCount | src/sipm_analysis_helper.hpp:107-113 | the outliers are at most the entries |
| Statistics.OverLimit | src/sipm_analysis_helper.hpp:163-172 | the entries over the limit are at most the entries |
| Statistics.IVColumns | src/sipm_analysis_helper.hpp:212-233 | one IV peak column per tray, the one the flag selects |
| Statistics.SPSColumns | src/sipm_analysis_helper.hpp:271-292 | one breakdown column per tray, the one the flag selects |
| Statistics.DarkColumns | src/sipm_analysis_helper.hpp:163-172 | one dark-current (+4 V) column per tray |
| Statistics.GetAvgFromVector | src/sipm_analysis_helper.hpp:54-66 | the plain average, sentinels included, NaN for an empty vector |
| Statistics.MeanSkippingSentinels | src/sipm_analysis_helper.hpp:187-204 | the sum of the non-sentinel entries over their number |
| Statistics.VarianceSkippingSentinels | src/sipm_analysis_helper.hpp:305-323 | the mean squared deviation of the non-sentinel entries from their mean |
| Statistics.TallyAll | src/sipm_analysis_helper.hpp:212-233 | the number and the sum of the measured entries over all trays |
| Statistics.CountSiPMsAllTrays | src/sipm_analysis_helper.hpp:75-86 | the measured raw IV peaks of all trays, 0 without a reader |
| Statistics.GetAvgVpeak | src/sipm_analysis_helper.hpp:181-205 | -1 for an index with no tray, otherwise the sentinel-skipping mean of the selected IV column |
| Statistics.GetAvgVbreakdown | src/sipm_analysis_helper.hpp:240-264 | -1 for an index with no tray, otherwise the sentinel-skipping mean of the selected SPS column |
| Statistics.GetAvgVpeakAllTrays | src/sipm_analysis_helper.hpp:212-233 | the measured IV peaks of all trays summed, over the count of measured raw IV peaks |
| Statistics.GetAvgVbreakdownAllTrays | src/sipm_analysis_helper.hpp:271-292 | the measured breakdown voltages summed, over the count of measured raw IV peaks |
| Statistics.GetStdevVpeak | src/sipm_analysis_helper.hpp:299-324 | -1 for an index with no tray, otherwise the root of the tray's IV variance |
| Statistics.GetStdevVbreakdown | src/sipm_analysis_helper.hpp:331-356 | -1 for an index with no tray, otherwise the root of the tray's SPS variance |
| Statistics.CountOutliersVbreakdown | src/sipm_analysis_helper.hpp:95-126 | one tray's outliers, or for -1 and every other index with no tray the outliers of all trays at 25 C |
| Statistics.CountDarkCurrentOverLimitAllTrays | src/sipm_analysis_helper.hpp:163-172 | the number of +4 V dark currents strictly above the limit over all trays |
| Statistics.ValidSumBounds | src/sipm_analysis_helper.hpp:187-204 | n measured values in [lo, hi] sum to a total in [n*lo, n*hi] |
| Statistics.AvgFromVectorBounds | src/sipm_analysis_helper.hpp:54-66 | the plain average of values in [lo, hi] lies in [lo, hi]; an empty vector gives NaN |
| Statistics.MeanBounds | src/sipm_analysis_helper.hpp:187-204 | the tray mean is NaN exactly when nothing was measured, and otherwise lies between the smallest and largest measured value |
| Statistics.SqDevSumFinite | src/sipm_analysis_helper.hpp:305-323 | squared deviations from a number add up to a non-negative number |
| Statistics.VarianceDefined | src/sipm_analysis_helper.hpp:299-324 | the variance is a non-negative number exactly when something was measured, NaN otherwise |
| Statistics.ConstantTray | src/sipm_analysis_helper.hpp:181-324 | a tray measuring c everywhere has mean c and variance 0 |
| Statistics.NoOutliersAroundNaN | src/sipm_analysis_helper.hpp:107-113 | a NaN average flags no SiPM |
| Statistics.AllOutliersAroundInfinity | src/sipm_analysis_helper.hpp:107-113 | an infinite average flags every SiPM |
| Statistics.SentinelsAreOutliers | src/sipm_analysis_helper.hpp:107-113 | around any plausible average, every sentinel is counted as an outlier |
| Statistics.OutlierBand | src/sipm_analysis_helper.hpp:110 | an entry is an outlier exactly when it lies 50 mV or more from the average |
| Statistics.OutliersFirstTraysBound | src/sipm_analysis_helper.hpp:117-125 | the all-tray outlier count is at most the number of SiPMs in the trays |
| Statistics.OverLimitAntitone | src/sipm_analysis_helper.hpp:163-172 | raising the limit never raises one tray's count |
| Statistics.TotalOverLimitAntitone | src/sipm_analysis_helper.hpp:163-172 | raising the limit never raises the all-tray count, which is at most the number of entries |
| Statistics.BatchMeanBounds | src/sipm_analysis_helper.hpp:212-233 | the batch mean lies between the smallest and largest measured value |
| Statistics.AllTraysMeanMiscounts | src/sipm_analysis_helper.hpp:271-292 | a tray with one breakdown voltage of 38 V and two measured IV peaks averages to 19 V |
| Statistics.AllTraysMeanAgrees | src/sipm_analysis_helper.hpp:212-292 | where the two counts agree, the all-tray average is the mean of the measured entries |
| BatchSummary.Arranged | src/sipm_batch_summary_sheet.cpp:515-518 | the sorted names are the trays the index names, position by position |
| BatchSummary.ReshuffleIndex | src/sipm_batch_summary_sheet.cpp:494-513 | fails exactly when there are more IV records than trays; otherwise a permutation of 0..n-1 naming trays in ascending compare order |
| BatchSummary.PlaceSmallest | src/sipm_batch_summary_sheet.cpp:498-510 | one outer pass keeps a permutation and settles one more position |
| BatchSummary.SwapKeepsOrder | src/sipm_batch_summary_sheet.cpp:504-507 | a swap at or after i keeps a permutation and the settled prefix |
| BatchSummary.BatchKey | src/sipm_batch_summary_sheet.cpp:656-660 | the batch is the prefix before the first '-', or the whole name |
| BatchSummary.BatchKeyOfName | src/sipm_batch_summary_sheet.cpp:656-660 | a tray named batch-number belongs to batch |
| BatchSummary.DelimiterAt | src/sipm_batch_summary_sheet.cpp:655-679 | a delimiter stands at i exactly when the batch changes between i-1 and i |
| BatchSummary.DelimitersMembers | src/sipm_batch_summary_sheet.cpp:655-679 | the delimiters are exactly the batch changes, in increasing order |
| BatchSummary.BatchDelimiters | src/sipm_batch_summary_sheet.cpp:653-679 | a line at every batch change; each batch is labelled at its start when the next begins, the final one only when the last two trays share it |
| BatchSummary.KeptTokens | src/sipm_batch_summary_sheet.cpp:535-536 | the tokens read are non-empty and do not start with '#' |
| BatchSummary.KeptPrefix | src/sipm_batch_summary_sheet.cpp:533-542 | reading fewer tokens reads a prefix of the kept ones |
| BatchSummary.NominalFields | src/sipm_batch_summary_sheet.cpp:528-543 | the line loop returns the first two kept tokens, "" where there are fewer |
| BatchSummary.TokensAfterWord | src/sipm_batch_summary_sheet.cpp:533 | `getline` on ' ' reads a space-free word and carries on after the space |
| BatchSummary.NominalPairOfLine | src/sipm_batch_summary_sheet.cpp:528-543 | "tray voltage" yields the tray and the voltage |
| BatchSummary.NominalPairReadsPastHash | src/sipm_batch_summary_sheet.cpp:535-536 | a '#' token is skipped but does not end the line |
| BatchSummary.NominalDifference | src/sipm_batch_summary_sheet.cpp:553-558 | each difference bin is the tray average less the nominal bin (both shifted by 4 V) |
| BatchSummary.ApplyNamed | src/sipm_batch_summary_sheet.cpp:546-561 | a nominal line keeps the number of bins |
| BatchSummary.NominalTable | src/sipm_batch_summary_sheet.cpp:528-562 | the nominal pass yields one bin per sorted position |
| BatchSummary.LastNaming | src/sipm_batch_summary_sheet.cpp:546-561 | the last line naming a tray, and no later line names it |
| BatchSummary.NominalTableBins | src/sipm_batch_summary_sheet.cpp:546-561 | each position holds what the last line naming its tray gives, or no nominal value |
| BatchSummary.NominalTableFailsAt | src/sipm_batch_summary_sheet.cpp:550-553 | a line naming a tray with an unreadable value makes the pass throw |
| BatchSummary.NominalTableFailure | src/sipm_batch_summary_sheet.cpp:550-553 | a failed pass names a line with an unreadable value and fails with its conversion error |
| BatchSummary.NominalTableStops | src/sipm_batch_summary_sheet.cpp:530-562 | once a line has thrown, the rest of the file does not matter |
| BatchSummary.NominalBins | src/sipm_batch_summary_sheet.cpp:530-562 | the nominal loop over file lines computes the nominal table |
| BatchSummary.SetNamedBins | src/sipm_batch_summary_sheet.cpp:546-561 | the loop over sorted positions for one line sets exactly the named tray's bins, or throws on the first such bin when the value cannot be read |
| BatchSummary.SortedAverages | src/sipm_batch_summary_sheet.cpp:515-525 | the tray averages listed in sorted order |
| BatchSummary.MakeIndexedTray | src/sipm_batch_summary_sheet.cpp:442-679 | sorted order, averages, nominal bins, delimiters and labels of the indexed tray plot, or `std::out_of_range` when there are more IV records than trays |
| BatchSummary.TestMapMatchesReader | src/sipm_batch_summary_sheet.cpp:1145-1149 | a map cell is the reader's value at that test index less the average, or -1 where there is none |
| BatchSummary.FillTestMap | src/sipm_batch_summary_sheet.cpp:1145-1150 | value i goes to set i/32, slot i%32; every later cell up to 480 is -1 |
| BatchSummary.TestMapVpeak | src/sipm_batch_summary_sheet.cpp:1135-1150 | the IV test map of a read tray, against its average; an unread tray throws |
| BatchSummary.TestMapVbreakdown | src/sipm_batch_summary_sheet.cpp:1193-1208 | the SPS test map of a read tray, against its average; an unread tray throws |
| Systematics.FirstExact | src/systematic_analysis_summary.cpp:262-272 | the index of the first tray equal to the base, or the list size |
| Systematics.FindBase | src/systematic_analysis_summary.cpp:262-272 | the search loop returns the first index whose tray compares equal to the base |
| Systematics.Matching | src/systematic_analysis_summary.cpp:281-283 | the indices from k on whose tray starts with the base |
| Systematics.MatchingMembers | src/systematic_analysis_summary.cpp:281-283 | an index is gathered exactly when it is at or after the base and its tray starts with the base; the indices increase |
| Systematics.Recheck | src/systematic_analysis_summary.cpp:296-304 | the recheck advances the counter once per mismatching set; a lookup beyond the IV records, or the console message naming a mismatching tray past the tray list, throws out of range |
| Systematics.RecheckShift | src/systematic_analysis_summary.cpp:296-304 | the counter never moves back, and stays put exactly when every repeated set is present |
| Systematics.RecheckSets | src/systematic_analysis_summary.cpp:296-304 | the recheck loop computes the shifting counter |
| Systematics.MaskOf | src/systematic_analysis_summary.cpp:290-295 | the mask of the first n sets holds `HasSet` of each; it fails exactly when some lookup throws, always out of range |
| Systematics.SetMask | src/systematic_analysis_summary.cpp:290-295 | the mask loop computes `MaskOf`: `HasSet` for all 15 sets, or the error of the first set that throws |
| Systematics.NextRepetition | src/systematic_analysis_summary.cpp:283-308 | the step computes `Next`; the first match changes nothing, the second builds the mask, later ones are checked and marked -1 exactly when the counter moved |
| Systematics.Next | src/systematic_analysis_summary.cpp:283-308 | the first match changes nothing; without a mask the repetition builds it from its own tray; with one it is checked, marked exactly when the counter moved, and unmarked only when every repeated set is present; only range failures occur |
| Systematics.Advance | src/systematic_analysis_summary.cpp:281-310 | one round pushes one entry exactly for a tray that starts with the base, and always moves the counter forward |
| Systematics.GatherFrom | src/systematic_analysis_summary.cpp:281-310 | the loop from a position to the end of the list only adds entries, and fails only out of range |
| Systematics.Gather | src/systematic_analysis_summary.cpp:262-311 | nothing is found exactly when no tray equals the base; only range failures occur |
| Systematics.PositionsPush | src/systematic_analysis_summary.cpp:283-307 | pushing the counter keeps every entry before the first -1 at its tray's position, later live entries past theirs, and the live entries increasing |
| Systematics.GatherCollected | src/systematic_analysis_summary.cpp:277-311 | whatever `Gather` collects for a listed base keeps the promises of `GatherRepeated` |
| Systematics.GatherRepeated | src/systematic_analysis_summary.cpp:277-311 | the loop computes `Gather`; no base found exactly when no tray equals it; otherwise one entry per match, the first being the base; every entry before the first -1 is its match's position, so the mask comes from the second match; later live entries lie past their match; live entries strictly increase; every later live entry has the repeated sets |
| Systematics.GatherDone | src/systematic_analysis_summary.cpp:277-311 | the loop invariant at the end of the trays gives the gathering result |
| Systematics.ReadingOf | src/systematic_analysis_summary.cpp:343-359 | a -1 entry is excluded, a -999 IV peak is a failed IV reading; lookups outside the data, and the tray-name lookup of the failed-SPS message past the tray list, throw |
| Systematics.TallyOf | src/systematic_analysis_summary.cpp:343-363 | the slot tally over the gathered entries, or the first lookup failure |
| Systematics.TallyOk | src/systematic_analysis_summary.cpp:343-363 | the tally succeeds exactly when every entry's reading does |
| Systematics.TallyFlags | src/systematic_analysis_summary.cpp:344-359 | the IV flag is set exactly when some live entry has the IV sentinel, the SPS flag exactly when some live entry passes IV and has the SPS sentinel |
| Systematics.TallyCount | src/systematic_analysis_summary.cpp:362 | the passed count is at most the live entries, and equals them with every one measured when nothing failed |
| Systematics.LiveCount | src/systematic_analysis_summary.cpp:343 | the live entries are at most the entries |
| Systematics.FillCheck | src/systematic_analysis_summary.cpp:402-406 | the histogram fill reads both values of every live entry, and only range failures can occur |
| Systematics.FillAfterTally | src/systematic_analysis_summary.cpp:343-406 | after a successful tally with no IV failure, the fill cannot throw |
| Systematics.SpreadNonNegative | src/systematic_analysis_summary.cpp:408-425 | with finite averages the summed squared deviations are non-negative numbers |
| Systematics.ReadingInRange | src/systematic_analysis_summary.cpp:343-359 | a live entry within both data lists and the tray list reads without throwing |
| Systematics.FillInRange | src/systematic_analysis_summary.cpp:402-406 | with every live entry within both lists the fill does not throw |
| Systematics.SlotOf | src/systematic_analysis_summary.cpp:337-433 | a slot's result fails only out of range, and has a spread exactly when no reading failed |
| Systematics.SetResults | src/systematic_analysis_summary.cpp:337-433 | one result per slot with its slot number, or the first range failure |
| Systematics.SlotDivisor | src/systematic_analysis_summary.cpp:362-365 | every slot's averages divide its own sums by the count of trays passed at slot 0 |
| Systematics.NoPassedNoAverage | src/systematic_analysis_summary.cpp:364-365 | when no tray passed at slot 0, every slot average is NaN or infinite |
| Systematics.TallySlot | src/systematic_analysis_summary.cpp:343-368 | the tray loop computes the slot tally |
| Systematics.FillSlot | src/systematic_analysis_summary.cpp:402-406 | the fill loop throws exactly as the fill check says |
| Systematics.SpreadSlot | src/systematic_analysis_summary.cpp:408-425 | the residual loop computes the summed squared deviations |
| Systematics.AnalyseSlot | src/systematic_analysis_summary.cpp:337-433 | one slot's analysis, with the slot-0 count carried to later slots |
| Systematics.AnalyseSet | src/systematic_analysis_summary.cpp:337-433 | the slot loop of one set computes its slot results over the width it is given; the analysis gives it the corrected `SlotsInSet` width of the second Findings row, not the source's 32 |
| Systematics.SlotsInSet | src/systematic_analysis_summary.cpp:337 | the corrected slot count of the second Findings row: 32 for a full set, the 12 that lie on the tray for the last set; at most 32 and never past 460 (the source runs 32 for every set) |
| Systematics.LastSetOverrunsAsWritten | src/systematic_analysis_summary.cpp:337-350 | running 32 slots on set 14 throws out of range |
| Systematics.CorrectedSetDoesNotThrow | src/systematic_analysis_summary.cpp:337-406 | with the set's own slot count and every index within the data and the tray list, a set's analysis does not throw |
| Systematics.SetsOf | src/systematic_analysis_summary.cpp:322-438 | the per-set results of the repeated sets, each over the corrected `SlotsInSet` width of the second Findings row rather than the source's 32, or the first failure |
| Systematics.SetsOfStops | src/systematic_analysis_summary.cpp:322-438 | once a repeated set throws, the later sets leave the outcome unchanged |
| Systematics.SetsOfOrdered | src/systematic_analysis_summary.cpp:322-334 | each analysed set is repeated, carries its slot count, and sets come in increasing order |
| Systematics.SetsOfComplete | src/systematic_analysis_summary.cpp:322-334 | every repeated set is analysed |
| Systematics.AnalysisCompletes | src/systematic_analysis_summary.cpp:322-406 | with every live entry within both data lists and the tray list, the corrected analysis of every repeated set does not throw |
| Systematics.AnalyseRepeatedSets | src/systematic_analysis_summary.cpp:322-337 | the set loop computes `SetsOf`: every repeated set analysed over its corrected slot count |
| Systematics.MakeReproducibility | src/systematic_analysis_summary.cpp:259-438 | base not found exactly when no tray equals it; fewer than two gathered trays stop before analysis; otherwise every repeated set is analysed over the corrected slot count of the second Findings row (the source, running 32 slots, throws whenever set 14 is repeated) |
| Systematics.ContainsLength | src/systematic_analysis_summary.cpp:604 | a tray containing "vopscan" is at least 7 characters long |
| Systematics.SelectNext | src/systematic_analysis_summary.cpp:603-616 | checking one more tray extends the selection exactly by a scan tray |
| Systematics.SelectedAll | src/systematic_analysis_summary.cpp:603-618 | after the whole list the selection is empty exactly when no tray contains "vopscan" |
| Systematics.OperatingVoltageScan | src/systematic_analysis_summary.cpp:599-622 | no scan exactly when no tray contains "vopscan"; a throw exactly when `std::stoi` rejects the last two characters of some scan tray; otherwise the scan trays in order with their voltages |
| Systematics.ScanVoltageOfSuffix | src/systematic_analysis_summary.cpp:607 | a scan tray ending in a two-digit n is at 42 + n/100 V |

## Left out

- Plotting: canvases, pads, histogram styling, legends, text, and PDF output. The model keeps the values that go into the histograms.
- File I/O: `stat`, `ifstream` and `ofstream` are modelled as a map from paths to directories or files given by their lines. `WriteCompressedFile` returns the rows it would write.
- Floating point: values are reals. Single-precision rounding and the decimal detail of `std::stof` beyond plain decimal text are not modelled. Division by zero gives NaN or an infinity.
- Statistics.GetStdevVpeak: returns the variance under the square root, because `sqrt` is not modelled.
- Statistics.GetStdevVbreakdown: returns the variance under the square root, because `sqrt` is not modelled.
- Systematics.SpreadSlot: returns the summed squared deviations whose square roots the source fills into the global histograms and error counters. The global residual and stdev histograms and the `gRepError` accumulation are not modelled.
- `snprintf` truncation of long tray paths, console output and terminal colours. Two console messages of the reproducibility analysis look a tray name up with `at`; those lookups can throw and are modelled in `Systematics.Recheck` and `Systematics.ReadingOf`.
- The global reader pointer: the reader is passed explicitly.
- `countOutliersVpeak` (only declared in src/sipm_analysis_helper.hpp), the extra-tolerance arguments, and the quadrature-sum switch of the global settings.
- `countValidSiPMs` and the memory management of the records (leaked vectors, the destructor).
- `makeTemperatureScan`: its body is empty.
- `makeIndexedOutliers`: its sort (src/sipm_batch_summary_sheet.cpp:794-812) and delimiter loop (922-948) are the same code as in `makeIndexedTray`, modelled once. Its outlier bars are not modelled.
- The per-tray averages that only set histogram ranges in the reproducibility analysis (`avg_this_tray_IV/SPS`).
- `makeOperatingVoltageScan` after the tray selection: the per-SiPM gathering and the graphs.
- Text.Stof: reads optional sign, digits and fraction only. Exponents, hexadecimal, "inf" and "nan" text are not modelled.
- Tray validation takes the reader's subscript flag and the file system as parameters; the source reads them from the object and the disk.
- The systematics flag set by `SetSystematicMode` is stored, but only prints a message in the source, so nothing else uses it.
- Reader.SiPMDataReader.WriteCompressedFile: applies the corrected guard of the first Findings row. As written, `tray_index` equal to the number of trays passes the unsigned `>` guard and `tray_strings->at` throws `std::out_of_range` (`Reader.AsWrittenGuardAdmitsEnd`); the model returns `Skipped` there.
- Systematics.MakeReproducibility: applies the corrected slot bound of the second Findings row. As written the analysis throws `std::out_of_range` whenever set 14 is repeated (`Systematics.LastSetOverrunsAsWritten`); the model analyses the 12 slots of set 14 instead.
- Systematics.SetsOf: runs `SlotsInSet` slots per set, the corrected bound of the second Findings row, not the 32 of the source.
- Systematics.AnalyseRepeatedSets: runs `SlotsInSet` slots per set, the corrected bound of the second Findings row, not the 32 of the source.
- Records.ParseIndex: row, column and row*23 + col are unbounded integers. The source computes row*23 + col in 32-bit `int`, whose overflow (undefined in C++, a wrap-around in practice) can bring a huge identifier back into 0..459: row 186737709, column 0 gives 11 there and `std::out_of_range` here.
- Reader.SiPMDataReader.GetVbdTrayIndexIV: the flat index 23*row + col is an unbounded integer; 32-bit overflow for huge arguments is not modelled.
- Reader.SiPMDataReader.GetVbdTrayIndexSPS: the flat index 23*row + col is an unbounded integer; 32-bit overflow for huge arguments is not modelled.
- Reader.SiPMDataReader.GetVbdTestIndexIV: the flat index 32*set + slot is an unbounded integer; 32-bit overflow for huge arguments is not modelled.
- Reader.SiPMDataReader.GetVbdTestIndexSPS: the flat index 32*set + slot is an unbounded integer; 32-bit overflow for huge arguments is not modelled.
- Reader.SiPMDataReader.HasSet: the flat index 32*set is an unbounded integer; 32-bit overflow for huge arguments is not modelled.
- Reader.TrayIndexFromTestIndex: 32*set + slot is an unbounded integer; 32-bit overflow for huge arguments is not modelled.
- Reader.TestIndexFromTrayIndex: 23*row + col is an unbounded integer; 32-bit overflow for huge arguments is not modelled.

## Findings

| source | as written | input that shows it | evidently intended | confidence | as-written member | corrected member |
|---|---|---|---|---|---|---|
| src/SiPMDataReader.hpp:656 | the guard returns only for `tray_index > size` (unsigned) | `tray_index` equal to the number of trays: `tray_strings->at(size)` throws `std::out_of_range` | skip every index outside `0 <= tray_index < size` | not executed | Reader.AsWrittenGuardAdmitsEnd | Reader.SiPMDataReader.WriteCompressedFile |
| src/systematic_analysis_summary.cpp:337 | every repeated set runs 32 slots | set 14 repeated: slot 12 of set 14 is flat index 460, past the 460-entry columns, so `at` throws | run only the slots that lie on the tray (12 for set 14) | not executed | Systematics.LastSetOverrunsAsWritten | Systematics.CorrectedSetDoesNotThrow |
