# REW SPL log ingestion and session breach analysis, in Dafny

This project models the two batch scripts that process sound pressure level
(SPL) logs saved by Room EQ Wizard (REW) for a noise-compliance case.

`build_database.py` ingests the logs:

- A header validator accepts only REW files recorded with the required
  calibration file and holding the C-weighted metrics.
- A keyword tagger reads the notes line and marks each file `Balcony` or
  `Nightclub`.
- The parser finds the start date and the data table, picks the table's
  delimiter, normalises the column names and gives every sample a timestamp.
- A per-file loop skips content whose MD5 digest is already recorded. It
  adds invalid or unparsable files to `bad_files`. It skips files without
  the extended columns or without a plausible row, without adding them to
  `bad_files`. Otherwise it appends the plausible rows to `spl_data`,
  records the digest and counts the file.
- A session tagger turns every stored reading that falls in one of twelve
  weekly windows into a `sessions` key. Each key is emitted once, and only
  when the table does not hold it yet.

`spl_session_summary.py` reads `spl_data` back:

- It allocates every reading that lies in a window to `"<date>_<label>"`
  sessions. Each session
  gets an epoch, which is its earliest timestamp.
- It classifies every row as day or night and picks the 90 dB or 80 dB limit.
- It flags strict exceedances as breaches.
- It counts distinct days and sessions for the batch details.

Module layout:

- `Clock`: timestamps as a proleptic day number plus microseconds since
  midnight, with Python's Monday = 0 weekday.
- `Text`: `startswith`, substring `in`, `lower` and `strip`.
- `Seqs`: order-preserving filters (pandas masks) and `next(...)` searches.
- `Windows`: the weekly windows and `session_includes`. Both scripts define
  it with the same test, so it is modelled once.
- `Header`, `Parser`, `Store`, `Ingest`: ingestion. `Ingest.Ingestor` is the
  loop over the script's mutable state. Its methods are proved against the
  functional specification `Step`/`Run`, and the properties are proved about
  that specification.
- `Tagging`: the tagging loop and its `seen` set, proved against `Emit`.
- `Summary`: the allocation loops, proved against `Allocate`, then day/night,
  limits, breaches and the distinct counts.

Hashing, text decoding, `strptime`, `pd.read_csv`, the directory walk and
`round(x, 1)` are inputs to the model: functions passed in (`Codecs`,
`Readers`, `round1`) or sequences given in walk order.

Two behaviours of the scripts are easy to miss:

- A file that lacks `lceq1m`, `lceq10m` or `lzpeak` is skipped without
  being logged as bad (build_database.py:207-209).
- The estimated level `Est_LCeq` is a plain copy of the stored `lceq`
  (spl_session_summary.py:102). No facade gain is added.

For a window that wraps midnight, the scripts' `session_includes` does not
match the after-midnight part on the following day (see Findings). The
model keeps that test as written (`Windows.IncludesAsWritten`), but the
tagging and allocation loops use the corrected test `Windows.Includes`. The
two agree on every window table without a wrapping window, which includes
the configured one (`Windows.ConfiguredWindowsDoNotWrap`).

## Model

| member | source | states |
|---|---|---|
| Header.IsValidRewFileIff | build_database.py:126-139 | A file passes exactly when it was read, has a first line, none of its first 15 lines mentions `VirtualMic.txt`, `LAS` or `LAeq`, line 0 starts with the REW banner, and some early line names the calibration file and some early line `LCS`. |
| Header.UnreadableOrEmptyIsInvalid | build_database.py:127-139 | An unreadable file and an empty file are both rejected. The empty one fails at `lines[0]`, and the bare `except` turns that into False. |
| Header.Early | build_database.py:129 | `lines[:15]` is a prefix of the lines. It holds exactly 15 lines, or all of them when there are fewer. |
| Header.ExtractLocationIff | build_database.py:142-152 | The tag is `Nightclub` exactly when line 1 exists and, lower-cased, contains "note" and one of "club", "prohibition" or "site". Every other file, readable or not, is `Balcony`. |
| Header.NightclubMentionsClub | build_database.py:147-149 | The keyword "nightclub" adds nothing beyond "club": every occurrence of it holds one of "club". |
| Text.ContainsIffOccurs | build_database.py:129-136 | Substring `in` holds exactly when the pattern occurs at some position. |
| Text.StripSpec | build_database.py:164 | `strip()` returns the slice between the first and the last non-space character, and only white space was removed. |
| Text.LowerIsLowerCase | build_database.py:164 | `lower()` keeps the length, turns each letter `A`-`Z` into its lower-case letter and keeps every other character. Its result has no upper-case letter, and lowering it again changes nothing. |
| Seqs.FilterMembers | build_database.py:215-220 | A mask keeps only elements that satisfy it, and every element that satisfies it. |
| Seqs.FilterCount | spl_session_summary.py:91 | A masked selection holds a qualifying element as often as the input does, and a non-qualifying one not at all. |
| Seqs.FirstIndex | build_database.py:161 | `next(...)` over `enumerate` gives the first index satisfying the test, or the default when none does. |
| Parser.ParseSpec | build_database.py:155-166 | No `Date:` line is an error. A successful parse has a `Date:` line and a line after the table header. Its start time is the parse of the stripped text after the first `Date:` prefix. It reads the table with that skip count and delimiter, and its columns are the table's header names, each stripped and lower-cased, in order. It has both `lcs` and `lceq`. Conversely, a file with a `Date:` line whose date parses, a line after the table header, a readable table and both mandatory columns parses. |
| Parser.ParsesWhenWellFormed | build_database.py:157-166 | When none of the raise points fires (a `Date:` line with a parsable date, a line after the table header, a readable table, both `lcs` and `lceq` after normalising), the parse succeeds. |
| Parser.NormalisedNameIn | build_database.py:164-165 | A name is among the normalised columns exactly when some header name normalises to it. |
| Parser.NormaliseColumnSpec | build_database.py:164 | A normalised column name has no upper-case letter and no surrounding white space, and normalising it again changes nothing. |
| Parser.SampleTimesIncrease | build_database.py:167-168 | Row 0 is stamped with the start time, and timestamps strictly increase with the row index. |
| Parser.SampleOffsetGrows | build_database.py:167-168 | Consecutive samples are at least 170666 µs apart, since `time_per_sample` is 0.1706666667 s. |
| Clock.Plus | build_database.py:168 | Adding a timedelta carries whole days into the date and moves the instant by exactly that many microseconds. |
| Clock.NotAfterIffInstant | spl_session_summary.py:95 | Comparing datetimes by date and then time of day is comparing instants, and equal instants are equal datetimes. |
| Clock.WeekdayOfNextDay | build_database.py:259 | The weekday of the next day is the weekday plus one, modulo 7. |
| Clock.TimeOf | build_database.py:55-66 | `time(h, m, s, us)` is the time of day whose hour, minute, second and microsecond are `h`, `m`, `s` and `us`. |
| Windows.IncludesIffInOccurrence | build_database.py:253-260 | The membership test used by the model holds exactly when the timestamp lies, both ends included, in an occurrence of the window that starts on a day with the window's weekday and ends on that day, or on the next day when the window wraps. |
| Windows.AsWrittenAgreesWhenNotWrapping | spl_session_summary.py:85-88 | When `start <= end`, the scripts' test is the model's test: the right weekday and `start <= time <= end`. |
| Windows.AsWrittenMissesAfterMidnight | build_database.py:256-260 | For a wrapping window (Friday 23:00 to 01:00), the code as written rejects Saturday 00:30, which lies in the Friday occurrence, and accepts Thursday 00:30, which lies in none. |
| Windows.FridayLateExamples | build_database.py:256-260 | With the corrected test, Friday 23:30 is inside the wrapping window and Saturday 02:00 is not. |
| Windows.ConfiguredWindowsDoNotWrap | build_database.py:54-67 | No configured window wraps midnight, so on the configured table the scripts' test and the model's test agree. |
| Windows.OneAmInTwoWindows | spl_session_summary.py:57-70 | At exactly 01:00:00 on Friday to Monday, a reading is in that day's `_00-01` and `_01-04` windows and in no other. |
| Windows.ThursdayMidnightGap | build_database.py:54-67 | Thursday 23:59:59.5 lies in no configured window. |
| Windows.IndexOfLabel | spl_session_summary.py:71 | A dict lookup finds the first entry with that label, or none. |
| Windows.DictItemsOfDistinct | spl_session_summary.py:71 | With distinct labels, the dict's `items()` are the table itself, in the same order. |
| Windows.ConfiguredLabelsDistinct | spl_session_summary.py:57-71 | The twelve configured labels are distinct, so `SESSIONS.items()` iterates the table in order. |
| Ingest.PlausibleReadingsAboveFloor | build_database.py:214-226 | Every appended row has `lcs`, `lceq`, `lceq1m` and `lceq10m` all at least 50.0. Its `lzpeak` is empty and it carries the file's path and location. |
| Ingest.PlausibleReadingsExact | build_database.py:214-220 | A frame row is appended exactly when its four checked levels clear the floor, and then with its own values. Every appended row is the reading of some frame row. |
| Ingest.FromFrameRows | build_database.py:215-220 | Nothing but frame rows is appended: each appended reading is built from a row of the frame. |
| Ingest.PlausibleReadingsInOrder | build_database.py:214-220 | The appended rows keep the frame's order: their timestamps strictly increase. |
| Ingest.FilterKeepsTimeOrder | build_database.py:215-220 | A mask over rows with increasing timestamps keeps them increasing. |
| Ingest.ScanSpec | build_database.py:191-231 | An insertion is never empty, clears the floor and carries the file's path. Byte-identical files get the same digest and are inserted under the same conditions. |
| Ingest.StepEffects | build_database.py:191-231 | A recorded digest changes nothing. An invalid header or a parse failure only appends the path to `bad_files`. Missing extended columns or no plausible row change nothing. The digest is recorded and the count incremented exactly on insertion. |
| Ingest.StepRecords | build_database.py:229-231 | A step adds the digest and counts the file exactly when it inserts, and it inserts only an unrecorded digest. |
| Ingest.StepKeepsPaths | build_database.py:230 | A step never changes the path recorded for an existing digest. |
| Ingest.RunKeepsFloor | build_database.py:215-229 | Stored rows are kept, and all rows in `spl_data` clear the floor when the stored ones did. |
| Ingest.RunKeysGrow | build_database.py:192-230 | Recorded digests are never dropped during a run. |
| Ingest.SameDigestInsertedOnce | build_database.py:191-195 | Once a digest is inserted, every later file with it is skipped as already processed. |
| Ingest.IdenticalFilesInsertedOnce | build_database.py:191-195 | Byte-identical files anywhere in one walk are inserted at most once. |
| Ingest.RunCountsNewDigests | build_database.py:229-231 | `processed_count` equals the number of digests recorded during the run, and earlier digests keep their paths. |
| Ingest.StepCountsNewDigest | build_database.py:229-231 | One step keeps `processed_count` equal to the number of newly recorded digests. |
| Ingest.RunSettles | build_database.py:178-231 | After a run, each file's digest is recorded, or its content is not insertable. |
| Ingest.SettledRunInsertsNothing | build_database.py:191-195 | A run over settled files changes neither `spl_data` nor `processed_files` and counts nothing. |
| Ingest.RerunInsertsNothing | build_database.py:178-231 | Running the script again over the same files inserts nothing and counts zero files. |
| Ingest.MissingExtendedIsNotReported | build_database.py:207-209 | A file without the extended columns is neither reported nor recorded, so every run examines it again. |
| Ingest.Ingestor.constructor | build_database.py:173-177 | A run starts from the stored tables, an empty `bad_files` list and a zero count. |
| Ingest.Ingestor.ProcessFile | build_database.py:191-232 | The loop body returns the route the specification gives, and the new state is `Step` of the old one. |
| Ingest.Ingestor.ProcessAll | build_database.py:178-232 | The loop over all files leaves the state `Run` gives. |
| Tagging.CandidatesForIff | build_database.py:263-265 | A window's candidate keys are exactly those of the readings inside the window. |
| Tagging.CandidatesIff | build_database.py:262-265 | The candidates are exactly the keys of the (window, reading) pairs with the reading inside the window. |
| Tagging.EmitSpec | build_database.py:269-272 | Emitted keys are pairwise distinct and absent from the existing keys. Each emitted row has `plot = None` and is a candidate. Every candidate key is emitted or already existed. |
| Tagging.TaggedRowsSpec | build_database.py:262-272 | Each row comes from a reading inside a window and carries that reading's location. The key of every reading inside a window ends up existing or emitted. |
| Tagging.EmittedLevelsRounded | build_database.py:262-265 | The level in every emitted key is the rounded `lceq` of a stored reading. |
| Tagging.EmittedKeysReread | build_database.py:244-265 | If rounding a rounded level changes nothing, then each emitted key comes back unchanged when the next run reads it back through `ROUND(lceq, 1)`. |
| Tagging.RerunEmitsNothing | build_database.py:244-272 | The first run's keys are stored and read back through `ROUND(lceq, 1)`. If rounding a rounded level changes nothing, a second run then emits nothing. |
| Tagging.TagSessions | build_database.py:250-272 | The nested loops with the `seen` set produce exactly `SessionData`. |
| Summary.InsertSorted | spl_session_summary.py:94 | Inserting a date into an ascending list of distinct dates keeps it ascending and adds exactly that date. |
| Summary.GroupKeys | spl_session_summary.py:94 | The group keys are each date of the selection once, in ascending order. |
| Summary.Earliest | spl_session_summary.py:95 | The group minimum is one of the group's timestamps and is no later than any of them. |
| Summary.AppendGroup | spl_session_summary.py:96-98 | The innermost loop appends one row per reading of the group, in order. |
| Summary.AppendDay | spl_session_summary.py:95-98 | One pass over a date group appends that group's rows, with its earliest timestamp as the epoch, after those of the earlier dates. |
| Summary.AppendDays | spl_session_summary.py:94-98 | The loop over date groups appends the rows `DayGroups` gives. |
| Summary.AppendLabel | spl_session_summary.py:91-98 | One label appends its window's allocation, or nothing when the selection is empty. |
| Summary.AllocateSessions | spl_session_summary.py:84-98 | The allocation loops build exactly `Allocate` of the labels and readings. |
| Summary.SelectionMembers | spl_session_summary.py:91 | A label's selection holds exactly the stored readings inside its window. |
| Summary.GroupMembers | spl_session_summary.py:94 | A date group holds exactly the selected readings of that date. |
| Summary.WindowSound | spl_session_summary.py:91-98 | A label's rows hold stored readings inside its window. Each row's session id carries the reading's own date and the label, and its epoch lies on that date, no later than the reading. |
| Summary.WindowEpoch | spl_session_summary.py:94-98 | Within a label, each session's epoch is no later than any of its readings and is the timestamp of one of them. |
| Summary.AllocationSound | spl_session_summary.py:90-98 | Every allocated row has a stored reading, a session date equal to the reading's date, and an epoch on that date no later than the reading. It also carries the label of a window that contains the reading. |
| Summary.EpochIsSessionMinimum | spl_session_summary.py:94-98 | With distinct labels, each session's epoch is the minimum of that session's timestamps and belongs to one of its rows. |
| Summary.WindowReadings | spl_session_summary.py:91-98 | A label's rows hold, as a multiset, exactly the readings inside its window. |
| Summary.AllocateByName | spl_session_summary.py:90-98 | With distinct labels, the rows carrying a label are exactly that label's contribution. |
| Summary.ReadingsPerLabel | spl_session_summary.py:90-98 | A reading appears under a label once per stored copy when the label's window contains it, and never otherwise. |
| Summary.FridayOneAmAllocatedTwice | spl_session_summary.py:57-98 | A stored Friday 01:00:00 reading is allocated under both `Friday_00-01` and `Friday_01-04`. |
| Summary.CountsBounded | spl_session_summary.py:129-130 | `days_processed <= sessions_processed <=` the number of allocated rows. |
| Summary.CountsBoundedFor | spl_session_summary.py:129-130 | When every session id embeds its rows' date, there are no more distinct dates than sessions and no more sessions than rows. |
| Summary.NightHours | spl_session_summary.py:108-116 | Night is exactly the time before 10:00, except up to 01:00:00 on Friday and Saturday, plus the time after 23:59:00 from Sunday to Thursday. |
| Summary.WeekendDaysAreLonger | spl_session_summary.py:110-115 | Any time of day that counts as day on some weekday counts as day on Friday and Saturday. |
| Summary.IsDayBoundaries | spl_session_summary.py:108-116 | Boundary cases: 10:00 and 23:59:00 are day on Sunday, 23:59:30 is night. Friday 01:00:00 is day and 01:00:00.000001 is night. Saturday 09:59 is night. Friday 00:30 is day and Sunday 00:30 is night. |
| Summary.Limit | spl_session_summary.py:118 | The limit is 90 dB exactly when the time is day, and 80 dB otherwise. |
| Summary.ClassifyAllSpec | spl_session_summary.py:101-119 | An empty allocation stops the script. Otherwise each row keeps its data, `Est_LCeq` equals `lceq`, and it is breached exactly when strictly louder than 90 dB by day or 80 dB at night. |
| Summary.BreachMonotone | spl_session_summary.py:118-119 | A level that breaches by day breaches at night, and a louder level at the same time breaches whenever a quieter one does. |
| Summary.BreachExamples | spl_session_summary.py:118-119 | 81.2 dB at Wednesday 02:00 breaches and 79.9 dB does not. 90.0 dB on Sunday at 11:00 equals the limit and does not breach. |

## Left out

- SQLite: creating tables, SELECT, INSERT and commits (build_database.py:72-114, 173-175, 244-248, 276-286; spl_session_summary.py:75-80) are modelled as in-memory maps, sets and sequences. The final `INSERT OR IGNORE` is not modelled. The tagger's rows are distinct and new anyway.
- The directory walk, the eight-digit folder filter and the `.txt` filter (build_database.py:178-189) are not modelled. The files arrive as a sequence in walk order.
- MD5 (`file_md5sum`) is an opaque function of the bytes. Only "same bytes, same digest" is used. A read failure while hashing, which aborts the script, is not modelled.
- UTF-8 decoding and `readlines()` are an opaque function that may fail, and the header checks treat failure as the script's `except` does.
- `strptime` on the date line and `pd.read_csv` tokenising are opaque functions that may fail. A non-numeric cell is not modelled: pandas would make the column text, and the comparison with the floor would raise.
- Parser.SampleOffset: the product `i * 0.1706666667` is taken exactly and rounded to the nearest microsecond. Binary floating-point error and `timedelta`'s round-half-even tie rule are not modelled.
- Decibel levels are real numbers. IEEE rounding is not modelled. NaN is the `Missing` cell, which fails every comparison.
- `round(lceq, 1)` and SQLite's `ROUND(lceq, 1)` are one opaque function `round1` passed to the tagger. They are taken to agree on every level.
- Tagging.RerunEmitsNothing: requires that rounding a rounded level changes nothing. Binary floating point does not guarantee this for every value.
- Tagging.TagSessions: tests window membership with the corrected `Windows.Includes`. This agrees with the script's `session_includes` only on window tables without a wrapping window, such as the configured one (`Windows.ConfiguredWindowsDoNotWrap`).
- Summary.AllocateSessions: uses the corrected `Windows.Includes` too, with the same agreement as for Tagging.TagSessions.
- The `strftime`/`strptime` round trip of timestamps through the `timestamp`, `date` and `time` text columns is taken to be lossless at microsecond resolution. Keys hold the day number and time of day.
- Text.Lower and Text.IsSpace cover ASCII letters and Latin-1 white space. Python's full Unicode `lower()` and `isspace()` are not modelled.
- Ingest.ColumnIndex takes the first of repeated normalised column names. pandas would return several columns there.
- The `Day` column (spl_session_summary.py:103), the empty `summary` and `breaches` lists, all CSV, bad-files and batch-details output, `datetime.now()`, print messages and the removal of earlier outputs are not modelled.
- `GAIN_TO_FACADE` (spl_session_summary.py:40), `BREACH_WINDOW` and `existing_dict` are defined but never used.
- plot_lceq_analysis.py is not part of this model: it only queries and plots.
- Ingest.StepEffects: requires an inserted route to carry rows. Ingest.ScanSpec proves this for every scanned file.

## Findings

| source | as written | input that shows it | evidently intended | confidence | as-written member | corrected member |
|---|---|---|---|---|---|---|
| build_database.py:259 | The wrapping branch of `session_includes` matches the after-midnight part when `(dt.weekday() + 1) % 7 == weekday`, which is the day before the window's weekday. spl_session_summary.py:88 has the same test. | Window (Friday, 23:00, 01:00): Saturday 00:30 is rejected and Thursday 00:30 is accepted. | The after-midnight part is matched on the day after the window's weekday: `dt.weekday() == (weekday + 1) % 7`. | high; not executed. No configured window wraps, so current outputs are unaffected. | Windows.AsWrittenMissesAfterMidnight | Windows.IncludesIffInOccurrence |
