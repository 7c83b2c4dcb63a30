# HDARead output core in Dafny

HDARead reads historical samples of several tags from an OPC HDA server. It
writes them out as delimiter-separated text. This project models the part
that shapes that text. It has two pieces.

- **The temporal merge** (`Program.Merge`). It keeps one cursor per tag. Each
  turn it finds the smallest head timestamp. Every tag whose head carries that
  timestamp copies the head sample and advances. Every other tag receives a
  placeholder: no value, DA quality `uncertain`, historian quality `NoData`.
  The loop goes on only while a cursor that advanced in this turn still has
  samples left.
- **The layout writers.**
  - `MergedOutputWriter`, `TableOutputWriter` and `RecordOutputWriter` in
    `OutputWriter.cs`, each with `WriteHeader` and `Write`.
  - The older `OutputTable` and `OutputMerged` in `Program.cs`.
  - The `-f` option parser `GetOutputFormat`.

Modules:

- `Samples` (`samples.dfy`): samples, series, the placeholder sample, timestamps as ticks.
- `TextOut` (`text_out.dfy`):
  - the sink: a `TextSink` class holding a `Stream` of finished lines and a partial line;
  - `Emission` values (what a piece of code writes, and the exception that cuts it short) composed with `AndThen` and `Sequence`;
  - `Join`, `Flatten` and composite-format templates (`Format`);
  - the foreign renderers, held in a `Render` value.
- `Program` (`program.dfy`):
  - `Merge`, over an `array<nat>` of cursors and an `array<Series>` of outputs, proved against the recursive `MergeFrom`/`MergeTable`;
  - the legacy layouts;
  - `GetOutputFormat`.
- `OutputWriter` (`output_writer.dfy`):
  - the writer base class, holding the settings, the sink and `Close`;
  - the three writer classes. Each holds its base as a field; the C# subclasses become composition.
  - Every method is proved against an `Emission` function of its inputs and the settings.
- `WriterLayouts` (`writer_layouts.dfy`): closed forms of what the writers write.
  - every line is the `Join` of a list of fields with the separator;
  - field and line counts;
  - where each tag's columns sit;
  - when each writer throws.

When a writer's code raises, the model stops its output at that point. The
writer then closes its sink when the output goes to a file and rethrows. The
method returns the exception as a `fault` value.

Points where the model follows the code rather than the intuitive reading:

- The merge stops when no turn-advanced cursor has samples left. Two tags
  `A=[t1]`, `B=[t2]` with `t1 < t2` produce a single row, and `B`'s sample
  is never copied (`StopsBeforeLaterTag`).
- Series that are all empty still give one placeholder row at
  `DateTime.MaxValue` (`AllEmptyGivesOneRow`), not zero rows.
- Each copy is traced, and the trace's arguments are evaluated even when
  verbose tracing is off. These include `Value.ToString()`, so copying a
  sample whose value is null throws `NullReferenceException` from `Merge`
  (HDARead/Program.cs:339-342). `Merge` reports this as a fault. A merge
  throws exactly when one of its rows copies a null value (`MergeRaises`).
- The legacy `OutputTable` takes its row count from series 0 only, because
  its maximum loop compares series 0 with itself (HDARead/Program.cs:245-250).
  It calls `Value.ToString()` without a null test, so a null value throws.
- `Opc.Da.Quality` is a struct, as the source's own comment says. The
  `Quality == null` tests in the legacy merged and merged writers are
  therefore never true, and quality is always written.
- The table and merged writers take every timestamp in row `j` from series 0.
  - The table writer runs its rows up to the longest series. A row index that
    series 0 lacks throws `ArgumentOutOfRangeException` once a longer series
    asks for it (`TableRowsFault`).
  - The merged writer runs its rows up to series 0's length. It throws
    `ArgumentOutOfRangeException` when another series is shorter than
    series 0 (`MergedRowsFault`).

## Model

| member | source | states |
|---|---|---|
| Program.Merge | HDARead/Program.cs:294-365 | The result is a fresh array. The merge fails exactly when some row copies a sample with a null value, and the failure is a NullReferenceException. Otherwise each output series is the input's name with column i of the merge table. |
| Program.FindMinTimestamp | HDARead/Program.cs:318-332 | Returns the smallest head timestamp among the tags whose cursor is in range, or DateTime.MaxValue when there is none. The traced column is the first tag whose head carries that minimum, or -1 when no head is earlier than DateTime.MaxValue. |
| Program.CopyStep | HDARead/Program.cs:334-362 | Fails exactly when the turn copies a null value. Otherwise the cursors are the advanced ones, and each output series has this turn's entry appended: the copied head, or a placeholder at the minimum. The returned flag is true iff an advanced cursor still has samples. |
| Program.Advance | HDARead/Program.cs:337-343 | A cursor moves up by exactly one iff its tag has a sample left whose timestamp is the minimum. Cursors never pass their series' end. |
| Program.MinHeadBounds | HDARead/Program.cs:318-332 | The minimum is at most every available head timestamp. It is either DateTime.MaxValue or reached by some tag. |
| Program.StepAdvances | HDARead/Program.cs:318-343 | While some tag has samples, some tag matches the minimum and the number of unread samples drops. |
| Program.RemainingShrinks | HDARead/Program.cs:336-346 | A turn never increases the unread samples, and strictly decreases them when some tag matches. This bounds the loop. |
| Program.MergeFrom | HDARead/Program.cs:308-363 | The loop from given cursors gives at least one row. Each row has one cell per tag, and every cell carries that row's timestamp. |
| Program.MergeTable | HDARead/Program.cs:303-309 | The merge from cursors all at 0 has at least one row, with one cell per tag. |
| Program.MergeUnfold | HDARead/Program.cs:309-363 | Reference definition, no property of its own. The rows from some cursors are this turn's row, followed by the rows from the advanced cursors when the loop goes on. |
| Program.CopiedFrom | HDARead/Program.cs:337-343 | The samples tag i's column copies from a cursor onward are the contiguous run of its input starting at that cursor. |
| Program.MergeCopiesPrefix | HDARead/Program.cs:336-356 | Entry j of output series i is either the next unread sample of input i or a placeholder at row j's timestamp. The copied entries, in order, form a prefix of input i. |
| Program.CopiedFromInput | HDARead/Program.cs:337-338 | Every sample a row copies for tag i comes from tag i's input. |
| Program.MergeShape | HDARead/Program.cs:297-362 | Names are kept. All outputs have one entry per merge row, at least one. Entries at the same index share their timestamp. |
| Program.NextMinimumLarger | HDARead/Program.cs:318-346 | With strictly ascending inputs, the next turn's minimum is larger than this one's. |
| Program.TimesIncreaseFrom | HDARead/Program.cs:318-346 | With strictly ascending inputs, the first row's time is the minimum, and row times strictly increase. |
| Program.MergeTimesIncrease | HDARead/Program.cs:318-346 | With strictly ascending inputs, the merged row timestamps strictly increase. |
| Program.AllEmptyGivesOneRow | HDARead/Program.cs:308-334 | When every series is empty, the merge yields exactly one row of placeholders at DateTime.MaxValue. |
| Program.SingleSeriesFrom | HDARead/Program.cs:336-346 | For one series, the column from a cursor onward is the rest of the series. |
| Program.SingleSeriesIdentity | HDARead/Program.cs:294-365 | Merging a single non-empty series gives that series back. |
| Program.StopsBeforeLaterTag | HDARead/Program.cs:334-346 | For A=[a], B=[b] with a earlier, the merge has one row and never copies b. |
| Program.TwoTagExample | HDARead/Program.cs:294-365 | For A=[a1,a2], B=[b1] with a1 and b1 at the same time, the merge has exactly two rows: (a1, b1), then (a2, placeholder). |
| Program.MergeRaisesOnlyOnNull | HDARead/Program.cs:339-342 | When every input sample has a value, the merge does not throw. |
| Program.MergeRaisesExample | HDARead/Program.cs:339-342 | A single series holding one null-valued sample makes the merge throw. |
| Program.OutputTable | HDARead/Program.cs:233-265 | The sink receives exactly the legacy table's output, and the exception it raises is reported. |
| Program.OutputTableHeader | HDARead/Program.cs:234-241 | Writes the heading of every tag, then ends the line. It cannot throw. |
| Program.OutputTableRows | HDARead/Program.cs:252-264 | Writes rows 0 up to the row count, stopping at the first exception. |
| Program.OutputTableRow | HDARead/Program.cs:253-263 | Writes row j: each tag's timestamp, value and quality, or ",," past the end of its series. |
| Program.LegacyTableLines | HDARead/Program.cs:233-265 | Reference definition, no property of its own. There are one header line and one line per entry of series 0. Each line is the comma-join of its fields. |
| Program.LegacyTableTitleJoin | HDARead/Program.cs:239 | A tag's heading is the comma-join of its four title fields. |
| Program.LegacyTableHeaderText | HDARead/Program.cs:234-241 | The header writes exactly one line: the comma-join of all tags' title fields. |
| Program.LegacyTableCellJoin | HDARead/Program.cs:253-262 | A cell that does not throw is its lead comma, then the comma-join of its three fields. |
| Program.LegacyTableRowFault | HDARead/Program.cs:256-259 | Row j fails iff some tag that has an entry at j has a null value there. The only failure is a NullReferenceException. |
| Program.LegacyTableRowText | HDARead/Program.cs:252-263 | A row that does not throw writes exactly one line, the comma-join of its fields. |
| Program.LegacyTableFault | HDARead/Program.cs:233-265 | With no series, one empty line is written, then an IndexOutOfRangeException. Otherwise the output fails iff some printed row holds a null value, and then with a NullReferenceException. |
| Program.LegacyTableRowsFault | HDARead/Program.cs:251-264 | The rows fail iff some printed row holds a null value, and only with a NullReferenceException. |
| Program.LegacyTableOutput | HDARead/Program.cs:233-265 | When nothing throws, the output is exactly the table's lines. |
| Program.LegacyTableMisaligned | HDARead/Program.cs:239-261 | The header has four fields per tag but every row only three, so the columns do not line up. |
| Program.OutputMerged | HDARead/Program.cs:267-292 | The sink receives exactly the legacy merged output, and the exception it raises is reported. |
| Program.OutputMergedHeader | HDARead/Program.cs:268-273 | Writes the first tag's "Timestamp, ..." heading and the others' headings, then ends the line. |
| Program.OutputMergedRows | HDARead/Program.cs:275-291 | Writes one row per entry of series 0, stopping at the first exception. |
| Program.OutputMergedRow | HDARead/Program.cs:276-290 | Writes row j: series 0's timestamp, then each tag's value and quality, each after a comma. |
| Program.LegacyMergedLines | HDARead/Program.cs:267-292 | Reference definition, no property of its own. There are one header line and one line per entry of series 0. Each line is the comma-join of its fields. |
| Program.LegacyMergedTitleJoin | HDARead/Program.cs:269-271 | A tag's heading is a lead comma, except before the first, then the comma-join of its title fields. |
| Program.LegacyMergedHeaderText | HDARead/Program.cs:268-273 | The header writes exactly one line: the comma-join of all tags' title fields. |
| Program.LegacyMergedRowFault | HDARead/Program.cs:279-288 | Row j fails iff some series has no entry j, and only with an ArgumentOutOfRangeException. |
| Program.LegacyMergedCellJoin | HDARead/Program.cs:279-288 | Each tag's part of a row is a comma, then the comma-join of its value and quality fields. |
| Program.LegacyMergedRowText | HDARead/Program.cs:276-290 | A row that does not throw writes exactly one line, the comma-join of its fields. |
| Program.LegacyMergedFault | HDARead/Program.cs:267-292 | With no series, nothing is written before an IndexOutOfRangeException. Otherwise the output fails iff a series is shorter than series 0, with an ArgumentOutOfRangeException. |
| Program.LegacyMergedRowsFault | HDARead/Program.cs:275-291 | The rows fail iff a series is shorter than series 0, and only with an ArgumentOutOfRangeException. |
| Program.LegacyMergedOutput | HDARead/Program.cs:267-292 | When nothing throws, the output is exactly the merged lines. |
| Program.LegacyMergedAligned | HDARead/Program.cs:269-288 | The header and every row have 1 + 2 × (tags) fields, so the columns line up. |
| Program.MergeThenOutputMerged | HDARead/Program.cs:110-111 | The merge result written by OutputMerged, with at least one tag, never throws. It writes a header plus one line per merge row. |
| Program.FormatOfCode | HDARead/Program.cs:34-38 | A value names a format iff it is 1, 2 or 3, and it names the format with that value. |
| Program.GetOutputFormat | HDARead/Program.cs:389-398 | An absent or empty option gives LIST. Acceptance holds iff the text is a case-sensitive format name or a decimal numeral of value 1 to 3. Otherwise the result is the "-f" OptionException, with the message naming the text. |
| Program.FormatRoundTrip | HDARead/Program.cs:389-398 | Each format is accepted under its own name and under its own digit. |
| Program.FormatLeadingZeros | HDARead/Program.cs:394 | Leading zeros do not change which format a numeral selects, or whether it is rejected. |
| Program.FormatRejections | HDARead/Program.cs:394-397 | The lower-case "list" is rejected with its message, and so are 0 and 4. |
| OutputWriter.QualityCount | HDARead/OutputWriter.cs:101-108 | There are no quality columns for NONE, two for BOTH, and one otherwise. |
| OutputWriter.MaxCount | HDARead/OutputWriter.cs:264 | The table's row count bounds every series' length and is one of them. |
| OutputWriter.OutputWriter.constructor | HDARead/OutputWriter.cs:21-58 | The writer keeps its settings and starts with a fresh, open sink. |
| OutputWriter.OutputWriter.Close | HDARead/OutputWriter.cs:60-67 | The sink's contents are unchanged. It is closed only when the output goes to a named file. |
| OutputWriter.OutputWriter.WriteTimestamp | HDARead/OutputWriter.cs:138-146 | Writes the date and time columns in the invariant culture for "DateTime", and GetDatetimeStr otherwise. |
| OutputWriter.MergedOutputWriter.constructor | HDARead/OutputWriter.cs:78-89 | The writer starts with the given settings and a fresh sink. |
| OutputWriter.MergedOutputWriter.WriteHeader | HDARead/OutputWriter.cs:91-124 | The sink receives exactly the merged header. |
| OutputWriter.MergedOutputWriter.Write | HDARead/OutputWriter.cs:126-185 | With raw reading, the series are merged first, and a merge that throws stops the method before it writes anything. Otherwise the sink receives exactly the merged body. A raised exception closes a file sink and is reported. |
| OutputWriter.MergedOutputWriter.WriteRows | HDARead/OutputWriter.cs:136-170 | Writes one row per entry of series 0, stopping at the first exception. |
| OutputWriter.MergedOutputWriter.WriteRow | HDARead/OutputWriter.cs:137-169 | Writes series 0's timestamp j, then each tag's entry, then ends the line. It stops when a series has no entry j. |
| OutputWriter.MergedOutputWriter.WriteEntry | HDARead/OutputWriter.cs:149-167 | Writes a separator and the value, or " " for a null value, then a separator and each selected quality. |
| OutputWriter.TableOutputWriter.constructor | HDARead/OutputWriter.cs:192-203 | The writer starts with the given settings and a fresh sink. |
| OutputWriter.TableOutputWriter.WriteHeader | HDARead/OutputWriter.cs:205-240 | The sink receives exactly the table header. Without a series it throws after writing nothing. |
| OutputWriter.TableOutputWriter.Write | HDARead/OutputWriter.cs:242-309 | The sink receives exactly the table body. A raised exception closes a file sink and is reported. |
| OutputWriter.TableOutputWriter.WriteRows | HDARead/OutputWriter.cs:266-294 | Writes rows 0 up to the longest series' length, stopping at the first exception. |
| OutputWriter.TableOutputWriter.WriteRow | HDARead/OutputWriter.cs:268-293 | Writes every tag's cell, separated by one separator, then ends the line. |
| OutputWriter.TableOutputWriter.WriteCell | HDARead/OutputWriter.cs:270-291 | Writes the cell's text without ending a line: series 0's timestamp and the filled template, or the empty-cell string. |
| OutputWriter.RecordOutputWriter.constructor | HDARead/OutputWriter.cs:320-331 | The writer starts with the given settings and a fresh sink. |
| OutputWriter.RecordOutputWriter.WriteHeader | HDARead/OutputWriter.cs:374-399 | The sink receives exactly the record header. |
| OutputWriter.RecordOutputWriter.Write | HDARead/OutputWriter.cs:333-372 | The sink receives exactly the record blocks of all tags, in order. |
| OutputWriter.RecordOutputWriter.WriteSeries | HDARead/OutputWriter.cs:344-359 | Writes one line per sample of one tag, in order. |
| OutputWriter.RecordBlock | HDARead/OutputWriter.cs:344-359 | Reference definition, no property of its own. A tag's block has one line per sample, and line k is sample k's record line. |
| WriterLayouts.TimestampTitleJoin | HDARead/OutputWriter.cs:95-98 | The merged timestamp heading is the separator-join of "Timestamp", or of "Date" and "Time". |
| WriterLayouts.TimestampJoin | HDARead/OutputWriter.cs:138-146 | A written timestamp is the separator-join of its one or two columns. |
| WriterLayouts.ValueTemplateJoin | HDARead/OutputWriter.cs:246-286 | The filled value template is a separator, then the separator-join of the value and the selected qualities. A null value renders as "". |
| WriterLayouts.MergedTemplateFill | HDARead/OutputWriter.cs:100-108 | The per-tag header template gives separator+name, then the DA and historian quality titles when selected. |
| WriterLayouts.MergedHeadingJoin | HDARead/OutputWriter.cs:100-113 | A tag's merged heading is a separator, then the separator-join of its title fields. |
| WriterLayouts.MergedHeaderLine | HDARead/OutputWriter.cs:95-114 | The merged header is exactly one line: the separator-join of the timestamp titles, then each tag's titles. |
| WriterLayouts.MergedLines | HDARead/OutputWriter.cs:136-170 | Reference definition, no property of its own. There is one line per entry of series 0, each the separator-join of its row's fields. |
| WriterLayouts.MergedEntryJoin | HDARead/OutputWriter.cs:149-167 | A tag's part of a merged row is a separator, then the separator-join of its value field (" " for null) and its selected qualities. |
| WriterLayouts.MergedRowFault | HDARead/OutputWriter.cs:147-154 | A merged row fails iff some series lacks entry j, and only with an ArgumentOutOfRangeException. |
| WriterLayouts.MergedRowLine | HDARead/OutputWriter.cs:137-169 | A row that does not throw writes exactly one line, the separator-join of its fields. |
| WriterLayouts.MergedRowsFault | HDARead/OutputWriter.cs:136-170 | The rows fail iff some series is shorter than series 0, and only with an ArgumentOutOfRangeException. |
| WriterLayouts.MergedBodyFault | HDARead/OutputWriter.cs:126-185 | A merge that throws gives a NullReferenceException with nothing written. No series gives an IndexOutOfRangeException with nothing written. Otherwise the body fails iff a series is shorter than series 0, with an ArgumentOutOfRangeException. |
| WriterLayouts.MergedBodyLines | HDARead/OutputWriter.cs:130-170 | When nothing throws, the body is exactly the merged lines. |
| WriterLayouts.MergedHeaderAligned | HDARead/OutputWriter.cs:95-114 | The header has TimestampWidth + (1 + qualities) × (tags) fields, with tag i's r-th title at TimestampWidth + (1 + qualities) × i + r. |
| WriterLayouts.MergedRowAligned | HDARead/OutputWriter.cs:137-169 | Every data line has the header's field count, and holds tag i's r-th field at the same position as the header's title. |
| WriterLayouts.MergedDataTags | HDARead/OutputWriter.cs:130-134 | Merging or not, the merged layout prints the tags it was given, in order. |
| WriterLayouts.MergedAfterMerge | HDARead/OutputWriter.cs:130-170 | With raw reading, at least one tag and a merge that does not throw, the body never throws. It writes one line per merge row. |
| WriterLayouts.TableTimestampTitleJoin | HDARead/OutputWriter.cs:209-213 | The table heading's timestamp part is the separator-join of the timestamp titles and the name. |
| WriterLayouts.TableQualityTitle | HDARead/OutputWriter.cs:215-222 | A quality title piece is the separator, a space, the name and its suffix. |
| WriterLayouts.TableTemplateFill | HDARead/OutputWriter.cs:209-222 | The header template gives the timestamp titles and the name, then the space-prefixed quality titles when selected. |
| WriterLayouts.TableHeadingJoin | HDARead/OutputWriter.cs:209-222 | A tag's table heading is the separator-join of its TableWidth title fields. |
| WriterLayouts.TableHeaderLine | HDARead/OutputWriter.cs:224-230 | With a series, the table header is exactly one line: the separator-join of all tags' title fields. |
| WriterLayouts.TableLines | HDARead/OutputWriter.cs:266-294 | Reference definition, no property of its own. There is one line per entry of series 0, each the separator-join of its cells' fields. |
| WriterLayouts.TableEmptyJoin | HDARead/OutputWriter.cs:247-260 | The empty cell is the separator-join of TableWidth blanks. So it has as many columns as a filled cell. |
| WriterLayouts.TableCellJoin | HDARead/OutputWriter.cs:270-291 | A cell is its lead separator, then the separator-join of its TableWidth fields: filled, or blank. |
| WriterLayouts.TableRowFault | HDARead/OutputWriter.cs:273-281 | Row j fails iff some series has an entry j that series 0 lacks, and only with an ArgumentOutOfRangeException. |
| WriterLayouts.TableRowLine | HDARead/OutputWriter.cs:268-293 | A row that does not throw writes exactly one line, the separator-join of its fields. |
| WriterLayouts.TableRowsFault | HDARead/OutputWriter.cs:266-294 | The rows fail iff some row index is held by a series but not by series 0, with an ArgumentOutOfRangeException. |
| WriterLayouts.TableBodyFault | HDARead/OutputWriter.cs:242-309 | Without a series, Max throws before anything is written. Otherwise the body fails iff some series is longer than series 0, with an ArgumentOutOfRangeException. |
| WriterLayouts.TableBodyLines | HDARead/OutputWriter.cs:264-294 | When nothing throws, the row count (the longest series) is series 0's length, and the body is exactly the table lines. |
| WriterLayouts.TableHeaderAligned | HDARead/OutputWriter.cs:209-230 | The header has TableWidth × (tags) fields, with tag i's name at TableWidth × i + TimestampWidth. |
| WriterLayouts.TableRowAligned | HDARead/OutputWriter.cs:270-291 | Every data line has the same field count as the header. Tag i's value, or a blank past its end, sits under its name. |
| WriterLayouts.RecordTitleJoin | HDARead/OutputWriter.cs:378-388 | The record header text is the separator-join of the timestamp titles, "Tag", "Value" and the selected quality titles. |
| WriterLayouts.RecordHeaderLine | HDARead/OutputWriter.cs:374-390 | The record header is exactly one line. |
| WriterLayouts.RecordLineJoin | HDARead/OutputWriter.cs:346-357 | A record line is the separator-join of the timestamp, the tag, the value ("" for null) and the selected qualities. |
| WriterLayouts.RecordAligned | HDARead/OutputWriter.cs:346-388 | A record line has the header's field count. The tag sits under "Tag" and the value under "Value". |
| WriterLayouts.RecordCount | HDARead/OutputWriter.cs:342-360 | The record writer never throws, and writes one line per sample of all tags. |
| WriterLayouts.RecordOrder | HDARead/OutputWriter.cs:342-360 | The record line of tag i's sample k comes after all samples of the earlier tags, then its own earlier samples. The order is tag-major. |
| WriterLayouts.RecordExample | HDARead/OutputWriter.cs:342-360 | Tags A=[a1] and B=[b1,b2] give the lines a1, b1, b2 in that order. |

## Left out

- Column alignment: the `*Aligned` lemmas count the fields of each line before joining. A tag name or rendered value that contains the separator still shifts the columns in the written file; the model does not promise otherwise.
- The command-line path is not modelled: `Main`, `ParseCommandLine`, `CheckOptions`, `ShowInfo`, `ShowHelp` and `GetHDAAggregate`. These are option parsing, file reading and console text.
- The historian client (`HDAClient` connect, read, disconnect) is a network client and is not modelled. The samples it returns are the inputs.
- `OutputList` (HDARead/Program.cs:215-231) is console display with padded composite formatting, and is not modelled. This includes its inverted format test at lines 223-227.
- `StreamWriter` creation, `AutoFlush` and `Console.SetOut` are I/O and are not modelled. The sink is a value that collects lines, and I/O failures of the sink are not modelled.
- `TraceSource` output is left out. The one effect kept is the exception raised while evaluating the arguments of the copy trace at HDARead/Program.cs:339-342.
- The `Merger` class is not part of this model. `MergedOutputWriter.Write` is modelled as calling `Program.Merge`.
- `Utils` is not part of this model. `Utils.GetDatetimeStr` is modelled by the local `GetDatetimeStr` (HDARead/Program.cs:400-408).
- `DateTime.ToString` and the `ToString` of values and qualities are given functions in `Render`. So is the culture's list separator, which is a setting.
- The separator is used as a literal inside composite-format templates. One holding `{` or `}` would change how .NET parses the template; the model treats it as plain text.
- Floating-point, culture and time-zone behaviour of the renderers is not modelled.
- `_OutputFormat` is stored by the writer base, but none of the modelled code reads it.
- Program.GetOutputFormat: models `Enum.TryParse` as exact names or plain decimal numerals. It does not model surrounding whitespace, signs, comma-separated flag lists, or integer overflow of long numerals, so it is weaker than .NET's parser on those inputs.
- The legacy `OutputTable` prints rows of four title columns but three data columns per tag. `LegacyTableMisaligned` states this as it is, not as a fix.
