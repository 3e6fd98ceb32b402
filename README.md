# Combined channel dataset builder, modelled in Dafny

`create_combined_dataset_v2` builds one table out of three text files:

- an access-point (AP) file, whose second line gives the AP position;
- a UE file, one position per user equipment;
- a channel-parameter file, which holds seven numbers per line, in blocks of 25 records.

The function reads the AP position. It then filters the channel file into numeric records:

- the first line is always discarded;
- blank lines and the `<ue>` separator are dropped;
- a line with a non-numeric token is skipped, and reading goes on.

If the total number of records is not 25 times the number of UE positions, the function returns `None`; the `<ue>` separators are never used to check block sizes. Otherwise it repeats every UE position 25 times. It pairs expanded row `j` with channel record `j` and with the constant AP position. Finally it lays the row out as AP x/y/z, UE x/y/z, then the seven channel fields.

The project has five files:

- `wrappers.dfy`: `Option`.
- `text.dfy` (module `Text`): Python's `str.strip()` and `str.split()`, over the whitespace set of `str.isspace()`, with their algebra. Stripping removes exactly the padding, `Split(Strip(s)) == Split(s)`, and splitting words written with any whitespace runs between them gives the words back.
- `readers.dfy` (module `Readers`): the AP reader and the channel-file loop. The loop is an imperative method proved equal to a recursive specification, `ChannelRecords`. A line-by-line reference, `Filter`, states what is kept.
- `frames.dfy` (module `Frames`): the few pandas operations used:
  - `DataFrame` from records or from dicts;
  - assigning a constant column;
  - `concat(axis=1)`;
  - selecting columns.

  Each is over a frame that is an ordered list of columns plus rows (`map<Column, V>`).
- `database_gen.dfy` (module `DatabaseGen`): the 25-fold expansion loop, the join, the count gate and the whole function. The function appears as a specification (`CombinedDataset`) and as a step-by-step method (`CreateCombinedDataset`) proved equal to it.

Values are an opaque type parameter `V`. Python's `float(p)` is a parameter `parse: string -> Option<V>`, which is `None` exactly where `float` raises `ValueError`. The outcome of a call is one of:

- `Dataset(rows)`;
- `NoDataset(expected, actual)`, the `return None` after the count warning, carrying the two counts the warning prints;
- `Raised(MalformedApFile)`, the `IndexError`/`ValueError` of lines 9-10;
- `Raised(MissingColumns)`, the `KeyError` of line 71.

Four behaviours of the code worth noting:

- Every all-numeric line is kept, whatever its number of fields. Seven fields are not checked there (see `RecordsFit` under "Left out").
- A count mismatch makes the function return `None`. It does not abort the run.
- Zero UE positions and zero channel records do not give an empty table. `pd.DataFrame([])` has no columns, so line 71 raises `KeyError` (`EmptyInputsRaise`).
- Only the total count is checked (lines 41-42). Blocks of 24 and 26 records for two UE positions, 50 in all, pass, and record 24, from the second block, is paired with the first UE position: row j always takes UE j / 25 (`DatasetRows`).

## Model

| member | source | states |
|---|---|---|
| Text.Strip | main_database_gen.py:22 | the stripped line neither begins nor ends with whitespace and is no longer than the line |
| Text.StripPadded | main_database_gen.py:22 | stripping a stripped text padded with whitespace on both sides gives back exactly that text |
| Text.StripIdempotent | main_database_gen.py:22 | stripping twice is stripping once |
| Text.StripEmptyIff | main_database_gen.py:22-23 | a line is empty after stripping if and only if it is all whitespace |
| Text.Split | main_database_gen.py:24 | `str.split()`: the maximal runs of non-whitespace, in order; its tokens are words (SplitWords), there are none exactly for all-whitespace text (SplitEmptyIff), and stripping first changes nothing (SplitStrip) |
| Text.SplitWords | main_database_gen.py:24 | every token `split()` yields is non-empty and free of whitespace |
| Text.SplitEmptyIff | main_database_gen.py:24 | `split()` yields no token if and only if the text is all whitespace |
| Text.SplitWordSeparator | main_database_gen.py:24 | a word followed by any non-empty run of whitespace is the first token, and the rest is split on its own |
| Text.SplitJoinWith | main_database_gen.py:24 | splitting words written with any non-empty whitespace runs between them gives back exactly those words |
| Text.SplitStrip | main_database_gen.py:9 | splitting a stripped line gives the same tokens as splitting the line |
| Readers.ReadAp | main_database_gen.py:8-10 | None when there are fewer than two lines, fewer than three tokens on the second, or a non-number among the first three; otherwise their values (ApMeaning) |
| Readers.ApMeaning | main_database_gen.py:8-10 | an AP position exists if and only if the second line has at least three tokens and the first three parse; it is then their values, and later tokens are ignored |
| Readers.SplitPadded | main_database_gen.py:9 | words written with whitespace around and between them strip to the written words and split back into the words |
| Readers.ApRoundTrip | main_database_gen.py:8-10 | an AP file whose second line is three numbers, with any whitespace around and between them, gives exactly that position, whatever the header and the later lines |
| Readers.ApTooFewTokens | main_database_gen.py:9-10 | fewer than two lines, or fewer than three tokens on the second, give no AP position (the IndexError case) |
| Readers.ParseAll | main_database_gen.py:27 | the list comprehension succeeds if and only if every token parses, and then holds each token's value in order |
| Readers.IsRecordLine | main_database_gen.py:22-27 | a line is kept when it is non-blank, not `<ue>` and all numeric once stripped (LineRecordMeaning) |
| Readers.LineRecord | main_database_gen.py:22-27 | the record of one line: its tokens' values in order for a record line, None otherwise (LineRecordMeaning) |
| Readers.LineRecordMeaning | main_database_gen.py:22-28 | a line yields a record if and only if it is non-blank, not `<ue>` and all numeric once stripped; the record holds its tokens' values in order |
| Readers.BlankAndSeparatorSkipped | main_database_gen.py:22-23 | a blank line, and `<ue>` with any whitespace padding, yield no record |
| Readers.RecordRoundTrip | main_database_gen.py:22-27 | numbers written with any whitespace around and between them (spaces, tabs, a line terminator) read back as a record of exactly those numbers, unless the line is `<ue>` |
| Readers.ReadLine | main_database_gen.py:22-31 | the loop body for one line yields a record if and only if the line is a record line, and the record holds the values of the line's tokens in order |
| Readers.LineRecordUnique | main_database_gen.py:22-31 | any result with that meaning is the line's record as the channel loop's specification reads it |
| Readers.RecordsBefore | main_database_gen.py:20-31 | the records a line reader keeps from lines 1 .. n - 1, in order; line 0 is never a record (RecordsBeforeKept) |
| Readers.ChannelRecords | main_database_gen.py:18-31 | the records of a channel file: those of every line after the first (ChannelRecordsSkipHeader), what ReadChannelRecords returns |
| Readers.ReadChannelRecords | main_database_gen.py:18-31 | the channel loop returns the records of lines 1.. in file order (the recursive specification `ChannelRecords`) |
| Readers.RecordsBeforeKept | main_database_gen.py:20-31 | the records gathered before line n are those the line reader keeps from lines 1 .. n - 1, in order |
| Readers.ChannelRecordsSkipHeader | main_database_gen.py:20-21 | the records of a file are those of every line after the first, whatever the first line holds |
| Readers.Kept | main_database_gen.py:21-31 | the records a reader keeps from a run of lines, each line read on its own (KeptAppend, KeptAll) |
| Readers.Filter | main_database_gen.py:21-31 | the channel records of a run of lines: skipped lines add nothing and record lines keep their record in place (SkippedLine, KeptLine, FilterAllRecords) |
| Readers.FilterAppend | main_database_gen.py:21-31 | reading two runs of lines gives the records of the first run, then those of the second |
| Readers.SkippedLine | main_database_gen.py:23-31 | a line that yields no record (blank, separator or non-numeric) contributes nothing, and reading goes on after it |
| Readers.KeptLine | main_database_gen.py:23-27 | a record line keeps its record in place between the records of the lines around it |
| Readers.FilterLength | main_database_gen.py:21-27 | at most one record per line |
| Readers.FilterAllRecords | main_database_gen.py:21-27 | when every line is a record line, record k is the record of line k |
| Frames.Labelled | main_database_gen.py:52 | a dict built from columns and values has exactly those keys, each holding its value |
| Frames.FromRecords | main_database_gen.py:33-37 | the frame has the given columns, one row per record, and row i holds record i's values under the columns; no other key |
| Frames.FromRows | main_database_gen.py:53 | a frame of dicts keeps the dicts as rows and has no columns when there are none |
| Frames.Broadcast | main_database_gen.py:56-58 | assigning a constant column adds it once, sets it in every row and leaves every other value unchanged |
| Frames.Concat | main_database_gen.py:61 | side-by-side concatenation of two frames with no column in common pairs rows by position; its columns are the first frame's followed by the second's |
| Frames.Select | main_database_gen.py:71 | selection succeeds if and only if every name is a column, and gives each row's values in the requested order |
| Frames.FinalLabels | main_database_gen.py:64-70 | the final columns carry exactly the thirteen header names, in order |
| Frames.FinalColumnsDistinct | main_database_gen.py:64-70 | the thirteen final columns are distinct |
| Frames.LabelInjective | main_database_gen.py:33-37 | distinct columns have distinct labels |
| DatabaseGen.UeRow | main_database_gen.py:52 | `row.to_dict()` of one UE position: exactly the keys UE_x, UE_y, UE_z holding x, y, z |
| DatabaseGen.UeRows | main_database_gen.py:50-52 | the dicts of the UE positions, one per position, in order (ExpandedRows) |
| DatabaseGen.Block | main_database_gen.py:51-52 | the inner loop's 25 appended copies of one row (ExpandUe) |
| DatabaseGen.Repeated | main_database_gen.py:49-52 | the first n items, 25 copies each, block after block: 25·n rows, row j being item j / 25 (RepeatedLength, RepeatedAt) |
| DatabaseGen.ExpandUe | main_database_gen.py:49-52 | the nested loop returns 25 copies of each row, block after block (the specification `Repeated`) |
| DatabaseGen.RepeatedLength | main_database_gen.py:49-52 | the expansion of n items has 25·n rows |
| DatabaseGen.RepeatedAt | main_database_gen.py:49-52 | the expansion has 25 rows per item, and row j is item j / 25 |
| DatabaseGen.ExpandedRows | main_database_gen.py:50-52 | the expanded UE list has 25·U rows, and row j is the dict of UE position j / 25 |
| DatabaseGen.ExpandedKeys | main_database_gen.py:52-53 | every expanded dict has exactly the UE columns |
| DatabaseGen.UeAndApFrame | main_database_gen.py:53-58 | the expanded frame with the AP columns has one row per dict; without rows its only columns are the AP ones |
| DatabaseGen.UeAndApRow | main_database_gen.py:56-58 | each of its rows holds the AP position and keeps its UE values |
| DatabaseGen.ChannelFrame | main_database_gen.py:33-37 | the channel frame has the seven channel columns and row i holds record i |
| DatabaseGen.Combined | main_database_gen.py:61 | the concatenated frame: columns UE, AP then channel (CombinedColumns), row j holding the AP position, UE j / 25 and record j (CombinedRow) |
| DatabaseGen.Assemble | main_database_gen.py:61-71 | the final selection once the counts agree: the table for U > 0 (AssembleRows), KeyError for U = 0 (EmptyInputsRaise) |
| DatabaseGen.DatasetRow | main_database_gen.py:64-71 | one finished row: AP x/y/z, UE x/y/z, then the seven channel values, as a row reads in the final column order (LaidOut) |
| DatabaseGen.CombinedColumns | main_database_gen.py:53-61 | the combined columns are UE, AP, channel; with no UE position they are only AP and channel |
| DatabaseGen.CombinedRow | main_database_gen.py:50-61 | combined row j holds the AP position, the position of UE j / 25 and channel record j |
| DatabaseGen.LaidOut | main_database_gen.py:64-71 | reading such a row in the final column order gives AP x/y/z, UE x/y/z, then the seven channel values |
| DatabaseGen.AssembleRows | main_database_gen.py:49-71 | once the counts agree and U > 0, the join gives 25·U rows; row j is the AP position, UE j / 25 and record j |
| DatabaseGen.EmptyInputsRaise | main_database_gen.py:41-71 | no UE position and no record pass the count check, then raise KeyError at the column selection |
| DatabaseGen.CombinedDataset | main_database_gen.py:5-73 | the whole function on the three files' contents: malformed AP, `None` on a count mismatch, the table, or KeyError, each in both directions (Outcomes), with the table's rows given by DatasetRows |
| DatabaseGen.CreateCombinedDataset | main_database_gen.py:5-73 | the step-by-step function ends in the outcome `CombinedDataset` gives |
| DatabaseGen.Outcomes | main_database_gen.py:5-73 | AP failure if and only if the AP line is malformed; `None` if and only if the AP reads and the count is not 25·U (with both counts); a table if and only if the counts agree and U > 0; KeyError if and only if both are empty |
| DatabaseGen.DatasetRows | main_database_gen.py:41-71 | a table has one row per kept record, 25·U rows; row j is the AP position, UE j / 25 and record j |
| DatabaseGen.BlockSharesUe | main_database_gen.py:50-52 | the 25 rows from 25·i to 25·i + 24 all carry UE position i |
| DatabaseGen.UniformApFile | main_database_gen.py:8-10 | an AP file whose second line is three numbers with single spaces gives their position |
| DatabaseGen.SeparatorSkipped | main_database_gen.py:22-23 | the `<ue>` line is not a record line |
| DatabaseGen.CopiesKept | main_database_gen.py:21-27 | m copies of a record line keep m copies of its record |
| DatabaseGen.CopiesThenSeparator | main_database_gen.py:18-31 | a header, m copies of a record line and the separator give m copies of that line's record |
| DatabaseGen.UniformChannelRecords | main_database_gen.py:18-37 | a channel file of 25·n copies of a seven-number line holds 25·n copies of its record, each of seven values |
| DatabaseGen.UniformFiles | main_database_gen.py:5-73 | for any non-empty UE list, an AP file of three numbers and 25 equal records per UE position give a table of 25·U rows, row j being the AP position, UE j / 25 and the record |
| DatabaseGen.TwoBlockExample | main_database_gen.py:5-73 | with two UE positions and 50 records, rows 0 and 24 carry the first UE position and rows 25 and 49 the second, next to the AP position and the record |

## Left out

- Opening and reading the files (lines 7, 19) and splitting them into lines. Each file is given as its sequence of lines. A line's terminator is whitespace that `strip()` removes.
- Reading the UE file with `pd.read_csv` (line 14). The UE positions are an input sequence, and how many of the file's lines pandas skips is not modelled.
- `float` itself. Parsing is the parameter `parse`; IEEE values, `nan`/`inf` and the accepted number syntax are not modelled.
- The diagnostic printed for a skipped line (line 30) and the two warning lines (43-44). `NoDataset` carries the two counts the warning prints.
- RecordsFit: once the AP file reads, `CombinedDataset` and `CreateCombinedDataset` require every kept record to have seven values. The code never checks this. `pd.DataFrame` at line 33 then raises or pads with missing values, depending on the lengths, and neither is modelled.
- Exceptions beyond the malformed AP line and the missing-column `KeyError`: missing files, unreadable text and pandas errors in the UE file.
- Concat: requires the two frames to share no column. `pd.concat(axis=1)` would keep both copies of a shared column, which a row map cannot hold. At line 61 the UE/AP and channel columns are disjoint (`ChannelColumnsApart`).
- pandas dtypes, the row index (`reset_index` gives positions 0..n-1, so the model pairs rows positionally) and what `row.to_dict()` does to value types.
- The commented-out demonstration (lines 75-99) and the script code that calls the function and writes the CSV (lines 101-110).
