# SickAPIWrapper pipeline, modelled in Dafny

This project models SickAPIWrapper, a field-phenotyping rig. A cart carries
a SICK lidar and a Raspberry Pi Pico with an IMU and a wheel encoder.

- **Capture.** `gui.py` logs the two sensor streams of one scan to a
  `{name}_lidar.csv` and a `{name}_pico.csv` file. Both files are stamped
  relative to a shared start time.
- **Reconstruction.** `parser.py` (and its variant `high_mem_parser.py`)
  pairs each lidar row with the pico row nearest in time. It turns the pairs
  into world points, then cuts each scan into per-plot clouds. The cuts are
  z-bins, one per plot label, on two crop rows. A ledger of completed scans
  keeps a rerun from redoing work.
- **Subplots.** `subparse.py` cuts each plot cloud into numbered subplots,
  one per plant. The numbering follows the direction of travel.
- **Encoder.** `pico/quadrature.py` decodes the wheel encoder's quadrature
  signal on the Pico.

Modules:

| module | file | what it models |
|---|---|---|
| `Text` | text.dfy | Python's `str(int)`, `int(str)`, `strip`, `split`, `join`, `os.path.splitext`, and an `Option` type |
| `TimeJoin` | time_join.dfy | `match_pico_times` and the 0.05 s tolerance filter |
| `Labels` | labels.dfy | `range`, `inclusive_range`, `letter_range`, plot labels |
| `ScanNames` | scan_names.dfy | scan discovery, `is_additional`, the canonical name `row_direction_a_b` |
| `Clouds` | clouds.dfy | point rows, boolean masks, the output directory as a map from file name to rows |
| `Reconstruct` | reconstruct.dfy | world points, the width mask, z-bins, both `row_match` polarities, plot layout |
| `ScanProcessor` | scan_processor.dfy | the `Plot` class and `process_scan`'s build, assign and write loops |
| `Ledger` | ledger.dfy | `completed_scans.txt` and the main loop over scans |
| `SubParse` | subparse.dfy | `is_point_cloud`, `ParentScan`, the direction lookup, subplot numbering, bins and writes |
| `Buffering` | buffering.dfy | `log_line_buffered` and a writer object with its buffer |
| `SerialLine` | serial_line.dfy | the serial line regex, read without backtracking, and the angles it yields |
| `Capture` | capture.dfy | the shared clock latch, corrected time, `serial_logger`, `extract_lidar_data`, `lidar_logger` |
| `ScanList` | scan_list.dfy | `get_scan_name` and the listbox selection in `toggle_logging` |
| `QuadratureDecoder` | quadrature.dfy | the `Quadrature` class: transition table, FIFO drain, reset |

Behaviour of the code worth knowing:

- A scan that `process_scan` leaves early is still appended to the ledger, because the append follows the call whatever it returned (parser.py:269-273). This covers missing files and scans with no matched pairs.
- The width mask keeps `|x| <= width`, where `width` is the whole `--width` argument in mm (parser.py:31, 196).
- parser.py computes `data[:, 2].min()` on the masked cloud. That raises when the mask keeps no point, and the exception ends the run (parser.py:206).
- `--split` defaults to 0, and its help text reads "0 = no split" (parser.py:21). With 0 every bin is empty, so nothing is written at all (parser.py:231-232).

## Model

| member | source | states |
|---|---|---|
| Text.NatToDigitsValue | parser.py:219 | `str(n)` is a digit string with no leading zero, and it reads back as `n` |
| Text.LeadingZerosValue | gui.py:239 | leading zeros do not change a numeral's value |
| Text.ParseIntOfString | parser.py:116 | `int(str(n)) == n` for every integer |
| Text.SuccessorStringDiffers | parser.py:219 | `str(int(x)+1)` never equals `x`, so the companion row differs from its row |
| Text.JoinSplit | parser.py:218 | joining the fields of `s.split(sep)` with `sep` gives back `s` |
| Text.SplitJoin | parser.py:116 | splitting a join of separator-free fields gives back the fields |
| Text.StripCsvExtension | subparse.py:54 | `os.path.splitext` removes exactly a trailing `.csv` from a name |
| Text.StripInfix | parser.py:264 | `strip()` keeps a slice of the line with only whitespace before and after it, and the slice neither starts nor ends with whitespace |
| TimeJoin.InsertionPoint | parser.py:55 | the insertion point `np.searchsorted` returns on sorted input: every element before the index is below the value, and the element at the index is not |
| TimeJoin.SearchSorted | parser.py:55 | the binary search returns the insertion point of a sorted sequence |
| TimeJoin.InsertionPointUnique | parser.py:55 | the two defining facts of an insertion point determine it |
| TimeJoin.NearestIndex | parser.py:55-59 | the clipped neighbour comparison returns an index inside the pico times; it is numpy's choice on sorted pico times |
| TimeJoin.Clip | parser.py:56 | definition: `np.clip(i, lo, hi)`, that is `min(max(i, lo), hi)` even when `lo > hi` |
| TimeJoin.At | parser.py:57 | definition: `pico_T[idxs - 1]`, with Python's reading of the index -1 |
| TimeJoin.MatchPicoTimesNearest | parser.py:51-59 | on sorted pico times, `match_pico_times` gives one index per lidar time, and no pico time is closer to that lidar time than the one it picks |
| TimeJoin.NearestIsOptimal | parser.py:55-59 | on sorted pico times no pico time is strictly closer than the chosen one |
| TimeJoin.NearestTieTakesLater | parser.py:59 | when both neighbours are equally close the later index wins, because `left < right` is strict |
| TimeJoin.JoinPairs | parser.py:177-179 | the kept pairs are lidar rows in order, each with its nearest pico row; a lidar row is kept exactly when its gap is at most 0.05 |
| TimeJoin.JoinStep | parser.py:178-179 | one more lidar row extends the join of the others by its pair exactly when that pair is within tolerance |
| TimeJoin.KeptExtend | parser.py:179 | appending the pair of row n keeps which earlier rows are kept unchanged |
| TimeJoin.JoinedPairsAreNearest | high_mem_parser.py:131-133 | every kept pair is within 0.05 s and pairs its lidar time with a nearest pico time |
| TimeJoin.NearestPairs | parser.py:177-179 | every pair the join keeps is within 0.05 s and no pico time is closer to its lidar time |
| Labels.PyRange | parser.py:68 | `range(start, stop, step)`: element k is `start + k*step`, the elements stay on `start`'s side of `stop`, and the range ends at the last step before `stop` |
| Labels.PyRangeUnitLength | high_mem_parser.py:161 | `range(a, b)` has `b - a` elements, or none |
| Labels.InclusiveRange | parser.py:76-77 | `inclusive_range` raises exactly when `step == 0` |
| Labels.InclusiveRangeShape | parser.py:78-86 | the range starts at `a`, steps by `abs(step)` toward `b`, and never passes `b` |
| Labels.InclusiveRangeUnitStep | high_mem_parser.py:78-89 | with the default step the range has `abs(b-a)+1` elements, from `a` to `b` |
| Labels.LetterRangeIsInclusive | parser.py:67-70 | `letter_range` is `inclusive_range` with step 1 on code points |
| Labels.LetterRangeShape | parser.py:61-70 | `letter_range` has `abs(ord(e)-ord(s))+1` letters, from `s` to `e`, each one step toward `e` |
| Labels.LetterRange | parser.py:61-70 | definition: `range(ord(start), ord(end) + 1)` or `range(ord(start), ord(end) - 1, -1)` on code points |
| Labels.ScanLabels | parser.py:220-223 | one-character tokens give `letter_range`; others give `inclusive_range(int(a), int(b))` as number labels, or an exception exactly when `int` rejects a token |
| Labels.ScanLabelsRange | parser.py:220-223 | either way the labels run from the start token to the end token inclusive, one step of 1 toward the end at a time: letters for two characters, numbers otherwise |
| Labels.ScanLabelsNonEmpty | parser.py:220-223 | whichever branch is taken, a canonical scan has at least one label |
| ScanNames.DiscoverScansExactly | parser.py:107 | a scan is discovered exactly when its `_lidar.csv` file is in the listing |
| ScanNames.DiscoverScans | parser.py:107 | definition: the set of `rsplit("_", 1)[0]` of the names ending in `_lidar.csv` |
| ScanNames.HeadOfLidarFile | high_mem_parser.py:64 | `rsplit("_", 1)[0]` of a `_lidar.csv` file name is the name without that suffix |
| ScanNames.IsAdditionalOfTokens | parser.py:108-122 | a name is additional exactly when `int()` rejects its first `_` field |
| ScanNames.IsAdditional | parser.py:108-122 | definition: `int()` of the first `_` field raises |
| ScanNames.ParseCanonicalRoundTrip | parser.py:218 | the four fields are read back from the name built from them, and only such names unpack |
| ScanNames.ParseCanonical | parser.py:218 | definition: `scan.split('_')` unpacked into four names, or the ValueError |
| ScanNames.CompanionRow | parser.py:219 | `str(int(row)+1)` differs from `row` |
| Clouds.Keep | parser.py:197 | boolean indexing keeps exactly the points the mask accepts, and no more rows than it had |
| Clouds.KeepAppend | parser.py:197 | the rows kept from two stretches are the rows kept from each, in order, so order and repeats are kept |
| Clouds.KeepOne | parser.py:197 | one row is kept, once, exactly when the mask accepts it |
| Clouds.KeepNothing | parser.py:241 | a mask that accepts no point gives an empty cloud |
| Clouds.KeepSame | high_mem_parser.py:191-192 | two masks that agree on every point select the same rows |
| Clouds.OutputDir.Create | parser.py:163 | `to_csv` creates or replaces exactly one file and leaves every other file unchanged |
| Reconstruct.Matched | parser.py:177-179 | the row pairs kept by the join and the tolerance filter, indices inside both files |
| Reconstruct.Frame | parser.py:196-200 | the cloud holds exactly the world points with `abs(x) <= width` |
| Reconstruct.MinZ | parser.py:206 | `min` of the z column: no point lies below it, and some point has it |
| Reconstruct.Select | parser.py:238-241 | a plot's cloud holds exactly the points that pass both the strict z test and the lateral test |
| Reconstruct.RangeMatch | parser.py:137-138 | definition: `min_z < z < max_z` |
| Reconstruct.RowMatch | parser.py:140-152 | definition: parser.py's `row_match`, x < 0 to r2 going 'down' and to r1 otherwise |
| Reconstruct.HighMemRowMatch | high_mem_parser.py:104-110 | definition: high_mem_parser.py's `row_match`, x < 0 to r2 going 'up' and to r1 otherwise |
| Reconstruct.XMask | high_mem_parser.py:191 | definition: the lateral rule, which high_mem_parser.py replaces by all-true for additional scans |
| Reconstruct.Z0 | parser.py:206 | definition: `data[:, 2].min()` in parser.py; high_mem_parser.py computes no z0 |
| Reconstruct.ScaledRoundTrip | parser.py:161-162 | `write` divides X, Y, Z and E by 1000 and leaves RSSI as is; multiplying back recovers the cloud exactly, so no point is lost, reordered or merged |
| Reconstruct.PairedBins | parser.py:230-234 | two plots per label, rows r1 then r2, on bin `(st + i*split, st + (i+1)*split)` |
| Reconstruct.TruncToInt | parser.py:210 | `int()` of a float moves toward zero by less than 1: `n <= x < n+1` for `x >= 0` and `n-1 < x <= n` for `x < 0` |
| Reconstruct.RowMatchExactlyOne | parser.py:140-152 | with two different rows, parser.py's row rule puts every x in exactly one of them |
| Reconstruct.HighMemRowMatchExactlyOne | high_mem_parser.py:104-110 | the same holds for high_mem_parser.py's rule |
| Reconstruct.HighMemRowMatchInverted | high_mem_parser.py:104-110 | for 'up' and 'down', high_mem_parser.py's rule is parser.py's with the sides swapped |
| Reconstruct.BinLowIncreasing | parser.py:231-232 | bin edges grow with the label index when the split is positive |
| Reconstruct.BinsDisjoint | parser.py:137-138 | a z value lies strictly inside at most one bin |
| Reconstruct.PairedBinsAbut | parser.py:231-232 | each bin ends where the next one begins |
| Reconstruct.PairedBinsAt | parser.py:230-234 | plot k is label k/2's bin, in row r1 for even k and r2 for odd k |
| Reconstruct.PairedBinsPair | parser.py:233-234 | the two plots of a label share its bin and take the two rows |
| Reconstruct.PairedBinsAtMostOne | parser.py:238-241 | with a positive split, different rows and the lateral rule, no point goes to two plots |
| Reconstruct.PairedBinsCover | parser.py:238-241 | a point strictly inside a bin goes to one of that label's two plots, or to both where the lateral rule is skipped |
| Reconstruct.HighMemAdditionalBothRows | high_mem_parser.py:189-192 | for an additional scan, the `_left` and `_right` plots of a bin receive the same cloud |
| Reconstruct.EdgeInNoPlot | parser.py:138 | a point exactly on a bin edge goes to no plot |
| Reconstruct.ZeroSplitSelectsNothing | parser.py:21 | with `--split 0` every plot's cloud is empty |
| Reconstruct.LayoutRowsDiffer | parser.py:208-219 | the two rows of a scan always differ |
| Reconstruct.LayoutAtMostOne | parser.py:203-241 | every layout with a positive split and the lateral rule is a partition: a point lands in at most one plot |
| Reconstruct.ScanLayout | parser.py:203-235 | definition: parser.py raises on an empty cloud, then the additional or the canonical branch |
| Reconstruct.CanonicalScanLayout | parser.py:217-235 | definition: the canonical branch; its properties are `CanonicalLayout` and `CanonicalBranch` |
| Reconstruct.AdditionalScanLayout | parser.py:207-216 | definition: the additional branch; its properties are `AdditionalLayout` and `AdditionalLabelsAt` |
| Reconstruct.CanonicalLayout | parser.py:217-235 | a canonical scan is laid out on `row` and `str(int(row)+1)`, two plots per label; the first bin starts at 0 when `a` is 'j' and at `start_mm` otherwise; the script raises exactly when the name, the row or the labels do not parse, or when parser.py's cloud is empty |
| Reconstruct.CanonicalBranch | parser.py:217-235 | a canonical layout exists exactly when the name unpacks, its row is an integer and its labels parse; it then lies on `row` and `str(int(row)+1)`, two plots per label |
| Reconstruct.AdditionalLayout | high_mem_parser.py:158-167 | an additional scan goes 'up' on `scan_left` and `scan_right` with labels `chr(97+i)`; its bins start at `z0 + start_mm` in parser.py and at `start_mm` in high_mem_parser.py |
| Reconstruct.AdditionalLabelsAt | parser.py:210-214 | `range(int(n_plots))` has `int(n_plots)` labels, and label i is `chr(97+i)` |
| ScanProcessor.Plot.constructor | parser.py:129-135 | a plot fixes its row, label and bin, and starts with an empty cloud |
| ScanProcessor.Plot.Write | parser.py:154-163 | nothing happens when the file exists or the cloud is empty; otherwise exactly this plot's file is created with the cloud scaled to metres |
| ScanProcessor.SpecsAppend | parser.py:214 | the descriptions of appended plots are appended |
| ScanProcessor.StoreAfterSnoc | parser.py:238-243 | writing one more plot is one more write step |
| ScanProcessor.BuildCanonicalPlots | parser.py:230-234 | the loop builds fresh plots whose descriptions are the paired bins of the labels |
| ScanProcessor.BuildAdditionalPlots | parser.py:210-214 | the loop builds fresh plots whose descriptions are the paired bins of labels `chr(97+i)` |
| ScanProcessor.LetterPlots | parser.py:210-214 | the `for i in range(int(n_plots))` loop: fresh plots whose descriptions are the paired bins of labels `chr(97+i)` |
| ScanProcessor.AppendRows | parser.py:213-214 | one fresh plot per row, all on the same label and bin |
| ScanProcessor.AssignAndWrite | parser.py:238-243 | each plot gets its selected cloud, and the output files end as the specification of the write loop says |
| ScanProcessor.BuildPlots | parser.py:202-235 | the plots built are the layout's plots, and the build fails exactly where the layout raises |
| ScanProcessor.ProcessScan | parser.py:166-245 | `process_scan` ends in missing data, no matches, completion or an exception, with the files the specification gives |
| ScanProcessor.ProcessCloud | parser.py:202-243 | the part after the width mask, against its specification |
| ScanProcessor.ScanStep | parser.py:166-245 | definition: `process_scan` from the loaded rows and the files before it to its outcome and the files after |
| ScanProcessor.CloudStep | parser.py:202-243 | definition: the part after the width mask |
| ScanProcessor.StoreAfterKeeps | parser.py:157 | writing never changes or removes an existing file; each new file belongs to a plot with a non-empty cloud |
| ScanProcessor.StoreAfterCovers | parser.py:157-163 | after writing, every plot with a non-empty cloud has its file |
| ScanProcessor.StoreAfterSettled | parser.py:157-160 | when every plot with points already has its file, writing changes nothing |
| ScanProcessor.StoreAfterIdempotent | parser.py:155-157 | writing a scan's plots again over the files of the first pass changes nothing |
| ScanProcessor.ScanStepIdempotent | parser.py:166-243 | processing a scan again over its own output writes nothing new |
| ScanProcessor.CloudStepIdempotent | high_mem_parser.py:157-194 | the same for the part after the width mask |
| ScanProcessor.ZeroSplitWritesNothing | parser.py:21 | with the default `--split 0` a scan writes no file |
| ScanProcessor.ZeroSplitCloud | high_mem_parser.py:188-194 | the same for the part after the width mask |
| ScanProcessor.LayoutEmptyBins | parser.py:231-232 | with a zero split every plot of a layout has an empty cloud |
| Ledger.LedgerFile.constructor | parser.py:255-258 | the ledger starts with the lines it holds |
| Ledger.LedgerFile.Append | parser.py:272-274 | appending adds exactly the one line `scan`, so the stripped name becomes completed |
| Ledger.RunAll | parser.py:260-274 | the main loop ends with the ledger, files and crash flag of its specification |
| Ledger.Run | parser.py:261-274 | definition: the main loop for a given `process_scan`, skipping scans the ledger lists and appending the others |
| Ledger.CompletedSetGrows | high_mem_parser.py:206-207 | more ledger lines never mark fewer scans completed |
| Ledger.RunSkipsCompleted | parser.py:263-266 | when the ledger lists every scan, the run processes nothing and changes nothing |
| Ledger.RunAppends | high_mem_parser.py:205-213 | the ledger only grows, and only by scans of the run |
| Ledger.RunRecords | parser.py:269-273 | after a run without an exception, every scan is in the ledger, including those `process_scan` left early |
| Ledger.RunRecordsOne | parser.py:261-273 | one scan of a run without an exception is listed in the final ledger, either as it is or stripped |
| Ledger.RerunDoesNothing | parser.py:247-274 | running again over what a run left changes nothing, if the run did not raise and no name has surrounding whitespace |
| Ledger.PaddedNameNeverCompleted | parser.py:264 | a scan name ending in whitespace is never found among the stripped lines, so every run processes it again |
| Ledger.StripNotPadded | parser.py:264 | a stripped ledger line never equals a name ending in whitespace |
| SubParse.PointClouds | subparse.py:35-40 | a name is kept exactly when it ends in `.csv` and does not contain "scan" |
| SubParse.PointCloudsAppend | subparse.py:35-40 | the point clouds of two stretches of a listing are those of each, in listing order |
| SubParse.PointCloudsOne | subparse.py:35 | one name is kept, once, exactly when it is a point cloud |
| SubParse.IsPointCloud | subparse.py:35 | definition: `name.endswith('.csv') and not 'scan' in name` |
| SubParse.AdditionalScansExcluded | subparse.py:32-35 | a `scan_…` file is never taken as a point cloud |
| SubParse.ParseParent | subparse.py:53-57 | the direction is the second `_` field of the name without its extension, the rows are `r` and `str(int(r)+1)`, and a bad name raises |
| SubParse.ParentOfFields | subparse.py:53-57 | a name whose first two `_` fields are an integer row and a direction gives that direction and the rows `r`, `str(int(r)+1)` |
| SubParse.ParentOfLidarFile | subparse.py:53-57 | a canonical scan's lidar file yields its direction and the two rows parser.py writes |
| SubParse.ParseParents | subparse.py:89 | one parent per reference name, or an exception if any raises |
| SubParse.FirstDirection | subparse.py:96-104 | the direction of the first parent whose rows contain the row; none if no parent does |
| SubParse.FindDirection | subparse.py:96-100 | the search loop with `break` returns that first direction |
| SubParse.ReversedMultiset | subparse.py:113 | reversing keeps every element and its count |
| SubParse.SubplotNums | subparse.py:110-113 | `1..n_plots`, reversed when the direction is 'down' |
| SubParse.SubplotNumsPermutation | subparse.py:110-113 | either way the numbers are a permutation of `1..n_plots` |
| SubParse.SubSelect | subparse.py:72-74 | a subplot's cloud holds exactly the points strictly inside its bin |
| SubParse.SubplotOrder | subparse.py:109-123 | subplot i keeps the file's row and range and is named `row_rng_sub` after its number; the lowest bin is plant 1 unless the cart went 'down', when it is the last plant; its bin is the i-th `split` above `z0 + start` |
| SubParse.SubplotsDisjoint | subparse.py:116-121 | with a positive split no point falls into two subplots |
| SubParse.SubplotNamesDistinct | subparse.py:67 | the subplots of one file have pairwise different `row_rng_sub` names |
| SubParse.SubPlot.constructor | subparse.py:64-70 | a subplot fixes its row, range, number and bin, and starts with an empty cloud |
| SubParse.SubPlot.Write | subparse.py:76-86 | nothing happens when the file exists or the cloud is empty; otherwise the file is created with the cloud unscaled |
| SubParse.BuildSubplots | subparse.py:115-123 | the loop builds fresh subplots whose descriptions are the specification's |
| SubParse.NumberedSubplots | subparse.py:117-123 | the `enumerate` loop: subplot i gets number i of the list and the bin from `z0 + start + i*split` to `z0 + start + (i+1)*split` |
| SubParse.WriteSubsSnoc | subparse.py:125-128 | writing one more subplot is one more write step |
| SubParse.FillAndWrite | subparse.py:125-128 | each subplot gets its cloud, and the files end as the specification says |
| SubParse.WriteSubsKeeps | subparse.py:79 | writing never changes or removes a file that exists |
| SubParse.WriteSubsContents | subparse.py:79-86 | every subplot with points has a file, and a new file holds exactly its subplot's points |
| SubParse.WriteSubsOrigin | subparse.py:76-86 | every new file belongs to one of the subplots written |
| SubParse.WriteSubsSettled | subparse.py:79-82 | when every subplot with points already has its file, writing changes nothing |
| SubParse.WriteSubsCovers | subparse.py:79-86 | after writing, every subplot with points has its file |
| SubParse.SplitOne | subparse.py:91-128 | one plot file is skipped, split or raises, with the files the specification gives |
| SubParse.SplitFile | subparse.py:91-128 | definition: one plot file skipped, split or raising |
| SubParse.SplitFileSettled | subparse.py:91-128 | processing a file again over its own output changes nothing |
| SubParse.Subparse | subparse.py:35-128 | the script ends with the files and exception flag its specification gives |
| SubParse.SubparseRun | subparse.py:35-128 | definition: the whole script on the two listings |
| SubParse.SplitFilesKeeps | subparse.py:79 | a run never changes or removes an existing file |
| SubParse.SplitFilesIdempotent | subparse.py:91-128 | running the loop again over its own output writes nothing and ends the same way |
| SubParse.SubparseIdempotent | subparse.py:88-128 | running the script a second time changes no file |
| Buffering.LogStep | gui.py:98-107 | the file followed by the buffer gains exactly the new line; the buffer is flushed and cleared exactly when it reaches `max_size`; a buffer below `max_size` stays below it |
| Buffering.LogAllContents | gui.py:98-107 | after any number of calls, the file followed by the buffer is every logged line, in order |
| Buffering.LogAll | gui.py:98-107 | definition: `log_line_buffered` called once per line, in order |
| Buffering.LogAllBounded | gui.py:104 | a buffer that starts below `max_size` never reaches it after any number of calls |
| Buffering.FlushEveryLine | gui.py:176 | with `max_size=1` every line reaches the file at once and the buffer stays empty |
| Buffering.FlushedKeepsAll | gui.py:191-232 | with the flush at close, the file holds every logged line whatever the batch size |
| Buffering.TailLostAsWritten | gui.py:191-232 | as written, with `max_size=50` the file holds exactly the first `len(lines) - len(lines) % 50` lines logged, in order; the last `len(lines) % 50` stay in the buffer and never reach it |
| Buffering.LineWriter.constructor | gui.py:198-201 | a new file and an empty buffer |
| Buffering.LineWriter.LogLine | gui.py:98-107 | one call, as `LogStep` states it |
| Buffering.LineWriter.Close | gui.py:201 | the corrected close, with the flush that gui.py:201 lacks (see Findings, and Capture.LidarLogger under Left out): the held lines reach the file and the buffer is empty |
| SerialLine.DigitRun | gui.py:129 | the longest run of digits at the front: all digits up to it, none at it |
| SerialLine.DigitRunOf | gui.py:129 | the digit run of digits followed by a non-digit is exactly those digits |
| SerialLine.Unsigned | gui.py:129 | `\d+` matches exactly when the text starts with a digit |
| SerialLine.UnsignedOf | gui.py:129 | the numeral of `n` is read back as `n` |
| SerialLine.SignedIntOf | gui.py:165 | `int(count)` reads back the printed count |
| SerialLine.NegativeOf | gui.py:129 | `-?\d+` reads back a negative count |
| SerialLine.NonNegativeOf | gui.py:129 | `-?\d+` reads back a non-negative count |
| SerialLine.DecimalAngle | gui.py:129 | a decimal group is read by its sign, whole digits and fraction digits |
| SerialLine.DecodeNeedsLeadingDigit | gui.py:144-146 | a stripped line that does not start with a digit is skipped |
| SerialLine.FloatOrNoneOf | gui.py:166-168 | a printed field, `None` or decimal, is read back as the angle it stands for |
| SerialLine.DecimalFieldOf | gui.py:129 | the decimal branch of that |
| SerialLine.NoneOf | gui.py:166-168 | `None` is read as the none angle, whose value is 0.0 |
| SerialLine.DecimalOf | gui.py:129 | `[-+]?\d*\.\d+` reads back a signed decimal |
| SerialLine.FractionOf | gui.py:129 | `\d*\.\d+` reads back whole and fraction digits |
| SerialLine.FractionDigitsOf | gui.py:129 | the digits after the point are read back |
| SerialLine.MatchRendered | gui.py:144 | a printed record followed by anything that does not extend its last number is read back field for field; the trailing text is ignored because `match` is used, not `fullmatch` |
| SerialLine.MatchLineOf | gui.py:144 | a line whose time, count and three angle groups each match is read as the record of those values |
| SerialLine.AnglesOf | gui.py:129 | the three angle groups are read back |
| SerialLine.CommaSignedOf | gui.py:129 | `,(-?\d+)` reads back the count |
| SerialLine.CommaFloatOf | gui.py:129 | `,(…\|None)` reads back one angle |
| SerialLine.DecodeRendered | gui.py:143-148 | the six-field line the pico sends (the record, then `,` and the pin value, then "\r\n") is stripped and read back as its record, whatever the pin value |
| SerialLine.Decode | gui.py:143-144 | definition: `pattern.match(line.strip())` and the conversion of its groups |
| SerialLine.MatchLine | gui.py:129 | definition: `pattern.match(s)` and the conversion of its five groups; text after the match is ignored |
| SerialLine.Render | thonny_main.py:53 | definition: the time, count and three angle fields the pico prints, comma-separated; the sixth field, the pin value, is appended in `DecodeRendered` |
| SerialLine.RenderedEnds | gui.py:143 | a record starts with a digit and ends with a digit or the `e` of `None` |
| SerialLine.StripLineEnd | gui.py:143 | `strip()` removes the "\r\n" and nothing else |
| Capture.LatchedStays | gui.py:156-158 | once set, the shared start time stays what it is whatever later streams latch |
| Capture.Latched | gui.py:156-158 | definition: the shared start is assigned only while it is `None` |
| Capture.FirstLatchWins | gui.py:153-158 | from `None`, the first stream to latch sets the shared start |
| Capture.SharedClock.LatchAt | gui.py:156-158 | the start is assigned exactly while it is `None` |
| Capture.SharedClock.Reset | gui.py:370 | a stop sets the start back to `None` |
| Capture.ResetThenFirstWins | gui.py:370 | from whatever start a session left, a stop's reset and the next session's two latches leave the start at the first latch time |
| Capture.CorrectedFirst | gui.py:161 | a stream's first sample is stamped `base_pi - shared` |
| Capture.CorrectedDifference | gui.py:227 | differences of corrected times are differences of device times, so order is kept |
| Capture.Corrected | gui.py:161 | definition: `(t - base) + (base_pi - shared)` |
| Capture.PicoTextSnoc | gui.py:176 | one more row adds its line at the end |
| Capture.SerialLogger | gui.py:109-179 | the file holds the lines of the specification's rows, and the shared start and encoder value end as it says |
| Capture.HandleRecord | gui.py:144-176 | one line read: the file holds the rows written so far at once, and the new anchor, shared start and encoder value, with the remaining lines, lead to the same end as the specification from before the line |
| Capture.WritePicoRow | gui.py:175-176 | one row through a writer with `max_size=1` reaches the file at once |
| Capture.Samples | gui.py:144-146 | a record is accepted exactly when some line decodes to it; with `SamplesAppend` and `SkippedLine` the records keep the order of their lines |
| Capture.SamplesAppend | gui.py:140-146 | the records of two stretches of lines are the records of each, in order |
| Capture.SkippedLine | gui.py:145-146 | a line that does not decode leaves the accepted records as if it had never been read |
| Capture.PicoRows | gui.py:161-175 | one row per record, stamped relative to the anchor, with its angles and count |
| Capture.PicoRowsCons | gui.py:161-175 | the rows of a record followed by others |
| Capture.PicoRun | gui.py:140-176 | definition: the loop of `serial_logger` over the decoded lines |
| Capture.AnchoredRun | gui.py:153-176 | once anchored, the stream appends one row per accepted record and leaves the shared start alone |
| Capture.PicoFileIsRecords | gui.py:140-176 | the pico file holds one row per accepted record, in order, relative to the first record's time and to the shared start latched then; with no record nothing is written or latched |
| Capture.PicoRowTimes | gui.py:161 | the first row is stamped `base_pi - shared`, and any two rows lie as far apart as their pico times |
| Capture.PicoEncoder | gui.py:171-172 | `encoder_val` ends at the count of the last accepted record, or where it was if none |
| Capture.Extract | gui.py:181-189 | time is `(start + stop) / 2 / 1e6`; phi, the thetas and the first echo's distances and intensities are passed on; an empty echo list raises |
| Capture.ExtractTimeBetween | gui.py:186 | a band's time lies between its start and stop stamps |
| Capture.LidarTextSnoc | gui.py:232 | one more row adds its line at the end |
| Capture.BandRows | gui.py:230-232 | one row per theta index, all with the band's time and phi; the loop raises exactly when the first echo is shorter than theta |
| Capture.LogBand | gui.py:230-232 | the band's rows go through the batched writer in order |
| Capture.LidarLogger | gui.py:191-232 | the file holds the lines of the specification's rows, with the held tail flushed, and the shared start and crash flag end as it says |
| Capture.HandleBand | gui.py:212-232 | one band: the file, with its held lines, is the rows so far; the logger stops exactly where the specification raises, ending as it says, and otherwise goes on from the new anchor and shared start to the same end |
| Capture.LidarRunStep | gui.py:212-232 | one band of the specification: its rows are logged, and the stream raises if the band's loop does, else goes on with the anchor and shared start it latched |
| Capture.LidarRun | gui.py:204-232 | definition: the loop of `lidar_logger` over the bands |
| Capture.LidarRunRows | gui.py:204-232 | the stream raises exactly when some band cannot be logged in full; otherwise every theta of every band gives one row; rows already logged are kept |
| Capture.LidarLatch | gui.py:219-224 | the lidar stream latches the shared start exactly when its first band can be read |
| Capture.LidarFirstStamp | gui.py:219-227 | the first band's rows are stamped `base_pi - shared` with the start latched then, and carry that band's phi and thetas |
| Capture.LidarKeepsShared | gui.py:219-224 | once anchored, the lidar stream never changes the shared start |
| ScanList.Pad3 | gui.py:239 | `f"{idx:03d}"` has at least three digits and reads back as `idx` |
| ScanList.AutoNameInjective | gui.py:239 | different indices give different `scan_NNN` names |
| ScanList.AutoNamesCard | gui.py:237-243 | the first n generated names are n different names |
| ScanList.Pigeonhole | gui.py:238-243 | a list holding the first n generated names has at least n entries, so the search ends |
| ScanList.SearchFrom | gui.py:237-243 | the search from an index below the first free one returns the first free name |
| ScanList.NextScanName | gui.py:234-243 | `get_scan_name` returns `scan_{idx:03d}` for the smallest `idx >= 1` not in the list, so never a listed name |
| ScanList.FirstFreeUnique | gui.py:237-243 | there is only one such name |
| ScanList.GetScanName | gui.py:234-243 | the loop returns that name and it is not in the list |
| ScanList.Select | gui.py:389-390 | the selection is always an entry of the list |
| ScanList.Start | gui.py:338-357 | the corrected start logs to the selected entry; with none, it appends the first free name and selects it; the list only grows |
| ScanList.StopAdvances | gui.py:380-392 | a stop selects the next entry when there is one; otherwise it appends the first free name, which was not listed, and selects it; the list only grows |
| ScanList.Stop | gui.py:380-392 | definition: the stop branch, moving to the next entry or appending a generated name |
| ScanList.DistinctAppendFree | gui.py:385-386 | appending a name the list lacks keeps its entries distinct |
| ScanList.StopKeepsDistinct | gui.py:380-387 | a stop never makes an entry appear twice |
| ScanList.StartKeepsDistinct | gui.py:338-347 | the corrected start never makes an entry appear twice |
| ScanList.StartAsWrittenReuses | gui.py:345-387 | as written, a start with nothing selected, then a stop, then a start log to the same name twice |
| ScanList.StartAsWritten | gui.py:338-357 | definition: the start branch as written, logging to a generated name it does not add to the list |
| ScanList.StartThenStopMovesOn | gui.py:338-392 | with the corrected start and a list without repeats, two scans in a row never share a name |
| ScanList.ScanNames.constructor | gui.py:306-312 | the list is loaded and its first entry is selected |
| ScanList.ScanNames.StartScan | gui.py:338-357 | the corrected start, and the encoder count back at 0 |
| ScanList.ScanNames.StopScan | gui.py:368-392 | the shared start is reset, then the selection advances as `Stop` says |
| QuadratureDecoder.DeltaTable | pico/quadrature.py:27-32 | exactly codes 0b0001 and 0b1000 add +1, exactly 0b0010 and 0b0100 add -1, every other code adds 0 |
| QuadratureDecoder.Delta | pico/quadrature.py:27-48 | definition: `transitions.get(transition, 0)` |
| QuadratureDecoder.Drain | pico/quadrature.py:37-50 | definition: the `while` loop of `position()` |
| QuadratureDecoder.Code | pico/quadrature.py:47 | `(last << 2) \| state` is a 4-bit code holding both states |
| QuadratureDecoder.LowBits | pico/quadrature.py:39 | `& 0b11` is a 2-bit state |
| QuadratureDecoder.DrainBounds | pico/quadrature.py:34-50 | at most 100 transitions are counted; the loop stops only at an empty FIFO, at the cap, or at a read that raises; it consumes a prefix of the FIFO; the position moves by at most one per counted step |
| QuadratureDecoder.DrainLastState | pico/quadrature.py:37-49 | the last state is the low bits of the last word consumed; with nothing consumed the state is unchanged |
| QuadratureDecoder.EmptyFifoUnchanged | pico/quadrature.py:37 | an empty FIFO leaves the decoder as it was |
| QuadratureDecoder.FirstWordOnlyLatches | pico/quadrature.py:43-45 | without a last state, the first word only sets it; the position and `iters` wait |
| QuadratureDecoder.WordStep | pico/quadrature.py:43-49 | a word read with a last state moves the position by the transition's value, latches its low bits and counts one step |
| QuadratureDecoder.ForwardCycle | pico/quadrature.py:27-48 | one forward Gray-code turn 00, 01, 11, 10 counts +2 |
| QuadratureDecoder.BackwardCycle | pico/quadrature.py:27-48 | one backward turn counts -2 |
| QuadratureDecoder.DeltaAntisymmetric | pico/quadrature.py:27-32 | reversing a transition reverses its step |
| QuadratureDecoder.Quadrature.constructor | pico/quadrature.py:12-16 | position 0, no last state |
| QuadratureDecoder.Quadrature.Position | pico/quadrature.py:26-52 | the fields end as the drain specification says, and the return value is the position |
| QuadratureDecoder.Quadrature.Reset | pico/quadrature.py:54-56 | position 0, no last state, the FIFO untouched |

## Left out

- **Trigonometry and rotation.** `_to_cartesian` and the scipy rotation are a parameter `rotate` from a lidar row and a pico row to a point (parser.py:43-49, 190-193; high_mem_parser.py:33-37, 144-147).
- **Floating point.** Times, angles and distances are exact reals. float64/float32 rounding and the uint16/int32 column types of `load_csv` are not modelled.
- **Rendering floats.** `str(float)` is a parameter `show` of the capture streams. Integers are rendered exactly.
- **CSV and file-system I/O.** pandas reads and writes, `os.listdir`, `os.scandir` and `os.path.exists` are left out. Loaded files are parameters, the output directory is a map from names to rows, and the ledger is a sequence of lines. A missing file loads as empty rows, as `load_csv` does.
- **Listing order.** Directory listings are given as sequences, in the order the file system returns them.
- **Command-line setup.** `argparse` and directory creation are left out. The settings are a configuration value.
- **Unicode.** `\d`, `int()` and `str.isspace` are modelled on ASCII, although Python also accepts other Unicode digits and spaces. Byte decoding of serial lines (`.decode()`) is left out; lines arrive as strings.
- **The GUI, devices, audio and threads.** tkinter, pygame, `serial.Serial`, the UDP and msgpack receiver, thread start and join, `on_key` and `update_label` are left out. The two streams are modelled one at a time. The Pi time at which a stream latches is a parameter, and the shared start it finds is the clock's state before it runs. The stop event is the end of the input sequences.
- TimeJoin.NearestIndex: `np.searchsorted` on pico times that are not increasing is not modelled. The model's insertion point and numpy's binary search agree only on sorted times, and pico stamps from `ticks_us` can wrap.
- Ledger.RunAll: `sorted()` is not modelled; the order of the scans is a parameter.
- **Capture.SerialLogger**: the `RESET` command sent to the pico and the failure modes of the serial port are left out, because they are device I/O.
- **Capture.LidarLogger**: models the corrected logger, which flushes the held rows at the end. The as-written behaviour is in `Buffering.TailLostAsWritten` (see Findings). `receive_segments(1)` is the sequence of segments received.
- **QuadratureDecoder.Quadrature.Position**: a read that raises is modelled as a `Fault` entry at the head of the FIFO that stays there. What `sm.get()` does to the FIFO when it raises is not visible in the source. The PIO program, the pins and the state machine set-up are hardware.
- **ScanList.Select**: `select_set` with an index outside the list is modelled as selecting nothing. Tk's own clamping of such an index is not modelled. The finding below holds either way.
- **Firmware loops and helper scripts.** `thonny_main.py` is not part of this model beyond the format of the line it prints (thonny_main.py:53); `pico/imu_encoder.py`, `voxelize.py` and `renamer.py` are not part of this model.

## Findings

| source | as written | input that shows it | evidently intended | confidence | as-written member | corrected member |
|---|---|---|---|---|---|---|
| gui.py:191-232 | `lidar_logger` writes lines only in batches of 50 and never flushes the buffer when the stream stops, so up to 49 trailing rows never reach the file | one band with a single theta: the buffer holds one line and the file is closed empty | flush the held lines when the stream ends | not executed | Buffering.TailLostAsWritten | Buffering.FlushedKeepsAll |
| gui.py:345-387 | a start with nothing selected logs to `get_scan_name(...)` without adding it to the list; the stop then appends that same name and selects it, so the next start logs to it again and its files (opened with 'w') overwrite the scan just taken | an empty list (no scan names file): start logs `scan_001`, stop appends `scan_001`, the next start logs `scan_001` | add the generated name to the list and select it when the start takes it | not executed | ScanList.StartAsWrittenReuses | ScanList.StartThenStopMovesOn |
