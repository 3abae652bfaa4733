# ResearchOS core rules in Dafny

This project models the deterministic core of ResearchOS, an electrochemistry
research workspace. The core covers:

- **Instrument-file ingestion.** It classifies techniques (CV, EIS, battery
  cycling, chronoamperometry, chronopotentiometry) from headers and content. It
  extracts units from column headers, cleans column names and coerces cells to
  numbers. It splits Gamry `.dta` text into a metadata header and a tab-separated
  data section.
- **Plot builders.** These turn a parsed table into CV, Nyquist, Bode,
  battery-cycling and generic plot descriptions. They also derive chart traces
  from the columns selected in a spreadsheet view.
- **Sequence and text utilities.** This covers token-budget truncation of a chat
  history, and CSV and Excel-CSV export. The export doubles inner quotes and
  wraps a field in quotes as section 2 of RFC 4180 describes, but only when the
  field holds `,` or `"`: a field holding a line break is not quoted, and lines
  end with `\n`.
- **Analytics aggregation.** It computes totals, recent activity, technique
  buckets and storage over a list of projects.
- **In-memory state behind the UI.** This includes:
  - the file-tree node map and the plot map;
  - the tag editor and the filter dialog;
  - the dataset-comparison selection;
  - the data table (search, sort, pagination, export);
  - the manuscript format checker;
  - the inline rename box.

One Dafny module corresponds to each source file. Where the source changes
state step by step, the module holds a `class` whose methods are proved against
specification functions. Where the source is a pure expression, the module holds
functions with their lemmas.

Four helper modules model the JavaScript primitives that the core relies on:

- `JsText`:
  - the `\s` white-space class, `trim` and ASCII `toLowerCase`;
  - `includes`, `startsWith` and `endsWith`;
  - `split` on one character, `join`, and `split(/\s+/)`;
  - decimal rendering of naturals.
- `JsNumber`: `parseFloat` (the longest decimal prefix) and `Number()` (the
  whole string), as partial parsers returning `Option<real>`.
- `Sequences`: removal of every occurrence of a value, and duplicate-freedom.
- `Overlays`: left-to-right union of a sequence of maps, which gives the
  "last write wins" rule of building a JavaScript object in a loop.
- `Wrappers`: `Option` and `Result`.

Values the source takes from the outside world are parameters of the model:

- the server's answer to `fetch` is a `serverOk` flag;
- `Date.now()` and `new Date()` are numbers or ISO strings;
- the text rendering of a JavaScript number is a `render` function;
- `localeCompare` is a `collate` function.

Where the comments or names in the source promise something other than what the
code does, the model follows the code. The lemmas below state the difference:

- The recursive child removal in `deleteNode` discards its result, so only the
  node itself leaves the map (`FileManagerStore.DeleteKeepsChildren`).
- The CV current-column test also accepts a column named "Potential"
  (`PlotConfigs.CvAxesMayCoincide`).
- The CV header rule wants "ewe" and "i" in the same header. So the headers
  `Ewe/V`, `I/mA` with no content are classified Unknown
  (`BaseParser.EweAndCurrentHeadersAreUnknown`).
- The data-availability warning is unconditional, because of `|| true`
  (`PublicationFormat.DataAvailabilityAlways`).
- The formatting suggestion is always pushed, so the "no critical issues" branch
  never runs (`PublicationFormat.SuggestionAlwaysLast`).
- The manuscript word limit is checked against `split(/\s+/).length`, which
  counts the empty parts at either end. The displayed count drops them
  (`PublicationFormat.CheckedCountsLeadingSpace`).
- The table's CSV export wraps cells in quotes without doubling inner quotes
  (`DataTable.QuoteInCellNotEscaped`).
- The two-column chart filters each column's NaNs on its own, so x and y can pair
  values from different rows (`PlotVisualization.PairingShiftExample`).
- The rename box saves an untouched name that has surrounding white space
  (`RenameInput.UntouchedPaddedNameSaves`).

## Model

| member | source | states |
|---|---|---|
| TokenUtils.EstimateTokens | lib/token-utils.ts:9-11 | the estimate is the ceiling of length/4: 4·n covers the length and stays below length+4, and it is 0 exactly for the empty text |
| TokenUtils.EstimateMonotone | lib/token-utils.ts:9-11 | a longer text never gets a smaller estimate |
| TokenUtils.TotalTokens | lib/token-utils.ts:42-44 | `calculateTotalTokens`: the sum of each message's estimate, oldest first; its properties are stated by `TotalTokensAppend`, `TotalTokensSuffix` and `KeptFits` |
| TokenUtils.TotalTokensAppend | lib/token-utils.ts:42-44 | the summed estimate of a concatenation is the sum of the two parts' sums |
| TokenUtils.TruncateToTokenLimit | lib/token-utils.ts:17-37 | the backwards `unshift` loop returns exactly the suffix of the messages that starts at `KeepFrom`, so the result is a contiguous suffix in the original order |
| TokenUtils.KeptFits | lib/token-utils.ts:25-33 | for a non-negative budget the kept suffix's summed estimate is within the budget; a negative budget keeps nothing |
| TokenUtils.StopsAtFirstOverflow | lib/token-utils.ts:28-30 | when the walk stopped before the start, taking one more (older) message would have overflowed the budget |
| TokenUtils.TotalTokensSuffix | lib/token-utils.ts:42-44 | a longer suffix never has a smaller summed estimate |
| TokenUtils.KeptIsLongestFittingWalk | lib/token-utils.ts:25-33 | every suffix longer than the kept one exceeds the budget, so older messages that would fit on their own are not taken |
| TokenUtils.NewestOverflowKeepsNothing | lib/token-utils.ts:28-30 | if the newest message alone overflows the budget the result is empty |
| BaseParser.UnitsOf | lib/parsers/base-parser.ts:71-91 | the units object after all headers: each header's slash and parenthesis entries overlaid in header order, later writes winning; its keys and values are stated by `UnitsOfKeys` and `UnitsOfLastWins` |
| BaseParser.StripParenthesised | lib/parsers/base-parser.ts:98 | `replace(/\s*\([^)]*\)/, '')`: the first "(" that has a ")" after it is cut out through that ")", with the white space before it; `CleanColumnName` states what the cleaned name then satisfies |
| JsText.Trim | lib/parsers/gamry-parser.ts:44 | `String.prototype.trim` as the parsers and components use it: never longer than the string (`TrimShape`: a slice of it with no white space at either end, only white space cut off) |
| JsText.TrimSlice | lib/parsers/gamry-parser.ts:44 | the trimmed string is a contiguous slice of the original that neither starts nor ends with white space (the part of `TrimShape` the parsers and components rely on) |
| JsText.TrimShape | lib/parsers/gamry-parser.ts:44 | the trimmed string is a contiguous slice of the original that neither starts nor ends with white space, and everything cut off before and after it is white space |
| JsText.Split | lib/parsers/gamry-parser.ts:51 | `split` on a one-character separator: at least one part, and no part holds the separator |
| JsText.SplitJoin | lib/parsers/gamry-parser.ts:51-54 | joining separator-free parts and splitting again gives back the parts |
| JsText.JoinSplit | lib/parsers/gamry-parser.ts:51-54 | splitting and joining with the same separator gives back the string |
| JsText.SplitWhitespace | components/publication/PublicationFormatAssistant.tsx:118 | `split(/\s+/)`: always at least one part, with an empty part for white space at either end (`CheckedCountsLeadingSpace`) |
| JsNumber.ParseFloat | lib/parsers/base-parser.ts:109 | `parseFloat`: a number exactly when a decimal literal starts the text after leading white space |
| JsNumber.ParseFloatOfNat | lib/parsers/base-parser.ts:109 | `parseFloat` reads the decimal text of every natural number back as that number |
| JsNumber.ToNumber | components/analysis/DataTable.tsx:51-52 | `Number(string)`: blank text is 0; otherwise a number only when the whole trimmed text is one literal |
| BaseParser.DetectTechnique | lib/parsers/base-parser.ts:17-65 | the result is CV, EIS, BatteryCycling, CA, CP or Unknown; each holds exactly when its rule fires on the lower-cased headers and content and no earlier rule does; Unknown exactly when no rule fires |
| BaseParser.DetectTechniqueIgnoresCase | lib/parsers/base-parser.ts:18-19 | inputs that agree after lower-casing get the same technique |
| BaseParser.DetectTechniqueOnLowered | lib/parsers/base-parser.ts:18-19 | classifying the lower-cased inputs gives the same technique as the originals |
| BaseParser.ContentCvWins | lib/parsers/base-parser.ts:22-27 | content containing "cv" in any letter case gives CV whatever the headers are |
| BaseParser.NoRuleWithoutKeyLetters | lib/parsers/base-parser.ts:22-62 | headers lacking the key letters of every rule, with empty content, fire no rule |
| BaseParser.EweAndCurrentHeadersAreUnknown | lib/parsers/base-parser.ts:21-64 | headers `Ewe/V`, `I/mA` without content are Unknown, because no single header has both "ewe" and "i" |
| BaseParser.ChronoLabelsNeedContent | lib/parsers/base-parser.ts:49-62 | CA needs a header with "time" and "current" and content with "chronoamperometry"; CP the same with "potential" and "chronopotentiometry" |
| BaseParser.LineParenMatch | lib/parsers/base-parser.ts:84 | a match of `(.+)\((.+)\)` on one line has non-empty parts and the line starts with `X(U)` |
| BaseParser.ExtractUnits | lib/parsers/base-parser.ts:71-91 | the loop over the columns builds exactly `UnitsOf(columns)`, each column's entries written over the earlier ones in order |
| BaseParser.UnitsOfKeys | lib/parsers/base-parser.ts:71-91 | a name is a key of the units exactly when some column contributes it |
| BaseParser.UnitsOfLastWins | lib/parsers/base-parser.ts:71-91 | a name's unit is the one from the last column that contributes that name |
| BaseParser.SlashHeaderUnit | lib/parsers/base-parser.ts:76-81 | a header with exactly one "/" and no parenthesised unit maps its trimmed left part to its trimmed right part |
| BaseParser.ManySlashesNoSlashEntry | lib/parsers/base-parser.ts:77-78 | a header with two or more "/" and no parenthesised unit adds nothing |
| BaseParser.ParenEntryWins | lib/parsers/base-parser.ts:84-87 | for a header matching `X(U)` the entry trim(X) → trim(U) is present and overrides a slash entry with the same key |
| BaseParser.UnitsOfEmpty | lib/parsers/base-parser.ts:72-90 | no columns give no units |
| BaseParser.CleanColumnName | lib/parsers/base-parser.ts:96-102 | the cleaned name holds no "/" and has no surrounding white space; a name with neither "(" nor "/" is just trimmed |
| BaseParser.ParseNumericRow | lib/parsers/base-parser.ts:107-112 | the row keeps its length; a cell stays text exactly when `parseFloat` gives NaN, otherwise it becomes the parsed number |
| GamryParser.CanParse | lib/parsers/gamry-parser.ts:5-7 | `filename.endsWith('.dta')`, case-sensitive (`CanParseIsCaseSensitive`) |
| GamryParser.ParseResult | lib/parsers/gamry-parser.ts:9-38 | the parse outcome: the "no data section found" error when no line holds the section tag, otherwise the Gamry-labelled table, its units and metadata (`ParseRejectsExactly`, `ParseResultShape`) |
| GamryParser.MetadataOf | lib/parsers/gamry-parser.ts:40-61 | the metadata dictionary: the entries of the header lines overlaid in order (`MetadataKeys`, `MetadataLastWins`) |
| GamryParser.DataOf | lib/parsers/gamry-parser.ts:63-92 | the columns and rows of the data section: the trimmed non-empty header fields, then one row of `isNaN(num) ? 0 : num` values, `num` being `parseFloat(v)`, per later data line (`HeaderColumns`, `RowCount`, `CellValue`) |
| GamryParser.CanParseIsCaseSensitive | lib/parsers/gamry-parser.ts:5-7 | a name ending in ".dta" is accepted and one ending in ".DTA" is not |
| GamryParser.SectionTagIsCurve | lib/parsers/gamry-parser.ts:14-16 | the section-tag test is just "contains CURVE", which already covers ZCURVE and OCVCURVE |
| GamryParser.SectionStart | lib/parsers/gamry-parser.ts:14-16 | the found index is the first line holding the tag, and none means no line holds it |
| GamryParser.ParseGamryMetadata | lib/parsers/gamry-parser.ts:40-61 | the loop builds exactly `MetadataOf(lines)`, the line entries overlaid in order |
| GamryParser.MetadataEntryOfTabLine | lib/parsers/gamry-parser.ts:44-56 | a kept line with a tab maps its trimmed first field to the trimmed rest, tabs included |
| GamryParser.MetadataEntrySkipped | lib/parsers/gamry-parser.ts:47-50 | blank lines, lines whose trimmed form starts with "TAG", and lines without a tab add nothing |
| GamryParser.MetadataKeys | lib/parsers/gamry-parser.ts:43-58 | a key is present exactly when some header line contributes it |
| GamryParser.MetadataLastWins | lib/parsers/gamry-parser.ts:55 | a duplicate key keeps the value of its last line |
| GamryParser.DataLinesKept | lib/parsers/gamry-parser.ts:65 | the data lines are exactly the non-blank lines not starting with "TAG", in order; none remain only when every line is excluded |
| GamryParser.HeaderColumns | lib/parsers/gamry-parser.ts:73 | every column is non-empty and already trimmed |
| GamryParser.CellValue | lib/parsers/gamry-parser.ts:81-84 | a cell is its `parseFloat` value, or 0 when that is NaN |
| GamryParser.ParseGamryData | lib/parsers/gamry-parser.ts:63-92 | the index loop produces exactly the columns and rows of `DataOf(lines)` |
| GamryParser.RowCount | lib/parsers/gamry-parser.ts:67-89 | with at least one data line there is one row per data line after the header; with none the result is empty columns and empty rows |
| GamryParser.RowOfNaturals | lib/parsers/gamry-parser.ts:81-84 | a tab-joined line of decimal naturals reads back as those numbers |
| GamryParser.Parse | lib/parsers/gamry-parser.ts:9-38 | `parse` on the file text equals `ParseResult(text)` |
| GamryParser.ParseResultShape | lib/parsers/gamry-parser.ts:22-37 | a parsed file is labelled Gamry, its units are those of its columns, its metadata comes only from the lines before the tag and its data only from the lines after it |
| GamryParser.ParseRejectsExactly | lib/parsers/gamry-parser.ts:14-20 | parsing fails, with the "no data section found" message, exactly when no line contains "CURVE" |
| PlotConfigs.FindIndex | lib/plotting/plot-configs.ts:7-16 | `findIndex` returns the first column passing the test, and none exactly when no column passes |
| PlotConfigs.IndexOf | lib/plotting/plot-configs.ts:317-318 | `indexOf` returns the first exact occurrence, and none exactly when the name is absent |
| PlotConfigs.ColumnValues | lib/plotting/plot-configs.ts:22-23 | one value per row, read from the chosen column |
| PlotConfigs.CreateCVPlot | lib/plotting/plot-configs.ts:3-68 | fails exactly when the potential or current column is missing; otherwise one trace whose x and y are copied from those columns |
| PlotConfigs.PotentialPassesCurrentTest | lib/plotting/plot-configs.ts:13-16 | a column containing "potential" and not "time" passes both the potential test and the current test |
| PlotConfigs.CvAxesMayCoincide | lib/plotting/plot-configs.ts:7-23 | when the first column is such a "Potential" column, the CV plot uses it for both x and y |
| PlotConfigs.DoublePrimePassesRealTest | lib/plotting/plot-configs.ts:74-78 | a column containing `z''` passes the real-impedance test |
| PlotConfigs.NyquistY | lib/plotting/plot-configs.ts:91-95 | the mapped value is numeric exactly when the input is, is never positive, and equals minus the absolute value |
| PlotConfigs.NyquistYIdempotent | lib/plotting/plot-configs.ts:91-95 | applying the sign normalisation twice gives the same as once |
| PlotConfigs.CreateNyquistPlot | lib/plotting/plot-configs.ts:70-140 | fails exactly when a needed impedance column is missing; otherwise x is copied from Re(Z), y is the normalised Im(Z) row by row, and the y axis is anchored to x with ratio 1 |
| PlotConfigs.NyquistYNonPositive | lib/plotting/plot-configs.ts:91-95 | every numeric y of a Nyquist plot is at most 0 and is a fixed point of the normalisation |
| PlotConfigs.CreateBodePlot | lib/plotting/plot-configs.ts:142-243 | fails exactly when frequency, magnitude or phase is missing; otherwise two configs sharing the frequency x axis, the first log-log and the second log-linear |
| PlotConfigs.FrequencyTestIsFreq | lib/plotting/plot-configs.ts:146-149 | the frequency test is "contains freq" after lower-casing |
| PlotConfigs.CreateBatteryCyclingPlot | lib/plotting/plot-configs.ts:245-308 | fails exactly when the cycle or capacity column is missing, whatever the unused voltage lookup finds; otherwise one config with cycles against capacity |
| PlotConfigs.CapacityTestIsCap | lib/plotting/plot-configs.ts:253-256 | the capacity test is "contains cap" after lower-casing |
| PlotConfigs.CreateGenericPlot | lib/plotting/plot-configs.ts:310-363 | fails exactly when either name is not a column (exact match); otherwise one trace named and titled `<y> vs <x>` reading the first columns with those names |
| PlotConfigs.GenericPlotCopiesCells | lib/plotting/plot-configs.ts:324-325 | each x and y of a generic plot is the very cell of that row in the named column |
| DataExporter.FieldText | lib/export/data-exporter.ts:28-34 | one field: a string holding `,` or `"` is quoted with its quotes doubled, any other string is written bare, numbers through the number formatting, `null` and `undefined` empty (`QuotedFieldReadsBack`, `BareFieldUnquoted`, `MissingKeyIsEmptyField`) |
| DataExporter.RowLine | lib/export/data-exporter.ts:27-35 | one record's fields for the first record's keys, in key order, joined by "," |
| DataExporter.CsvContent | lib/export/data-exporter.ts:25-37 | the header line and the record lines joined by "\n" (`CsvLines`, `CsvLineCount`) |
| DataExporter.Lookup | lib/export/data-exporter.ts:29 | a key the record lacks reads as `undefined` |
| DataExporter.DoubleQuotesRoundTrip | lib/export/data-exporter.ts:32 | undoubling the escaped text gives back the original, and the escaped text has its quotes paired |
| DataExporter.QuotedFieldReadsBack | lib/export/data-exporter.ts:31-33 | a string with a comma or a quote is emitted between quotes, and the inside reads back to the original string |
| DataExporter.BareFieldUnquoted | lib/export/data-exporter.ts:31-34 | any other string is written as it is, so a field holding a line break is not quoted (as `"a\nb"` shows) |
| DataExporter.CsvLines | lib/export/data-exporter.ts:22-36 | one header line of the first record's keys joined by ",", then one line per record |
| DataExporter.ExportFileName | lib/export/data-exporter.ts:19-45 | the file name always ends in ".csv" |
| DataExporter.FileNameSuffix | lib/export/data-exporter.ts:19-45 | without a timestamp the name is `<filename>.csv`; otherwise `_<date>` (the ISO time before "T") comes before the extension; "data" is the default name |
| DataExporter.ExportToCsv | lib/export/data-exporter.ts:14-46 | fails with "No data to export" exactly for null or empty data; otherwise the content is the lines joined by "\n" |
| DataExporter.ExportToExcel | lib/export/data-exporter.ts:66-96 | fails with "No data to export" exactly for null or empty data |
| DataExporter.ExcelIsBomPlusCsv | lib/export/data-exporter.ts:77-89 | the Excel export fails exactly when the CSV one does, and otherwise is the CSV content behind a byte-order mark |
| DataExporter.CsvLineCount | lib/export/data-exporter.ts:25-37 | when no field holds a line break, the content splits back into its data.length + 1 lines |
| DataExporter.MissingKeyIsEmptyField | lib/export/data-exporter.ts:22-29 | a header key missing from a later record gives an empty field |
| FileManagerStore.NodeMap | lib/stores/fileManagerStore.ts:58-64 | the dictionary the `forEach` of `setNodes` builds, each node under its id (`NodeMapKeys`, `NodeMapLastWins`) |
| FileManagerStore.Toggled | lib/stores/fileManagerStore.ts:68-79 | the nodes after `toggleFolder`: a folder's `isExpanded` flips, anything else is left as it is (`ToggleOnlyFlipsFolders`, `ToggleTwice`) |
| FileManagerStore.Updated | lib/stores/fileManagerStore.ts:81-92 | the nodes after `updateNode`: the update is merged into an existing node, an absent id is a no-op (`UpdateOnlyTouchesId`) |
| FileManagerStore.Renamed | lib/stores/fileManagerStore.ts:130-136 | the nodes after an accepted rename: `{...nodes[id], name}`, a partial node for an absent id (`RenameOnlyChangesName`) |
| FileManagerStore.RemoveNodeAndChildren | lib/stores/fileManagerStore.ts:153-168 | the map the delete action stores: the copy without `id`, since the recursive calls' results are discarded (`DeleteKeepsChildren`) |
| FileManagerStore.Flip | lib/stores/fileManagerStore.ts:75 | `!isExpanded` is true exactly when the flag was not true, an absent flag included |
| FileManagerStore.NodeMapKeys | lib/stores/fileManagerStore.ts:58-64 | a key of the node map is exactly the id of some listed node |
| FileManagerStore.NodeMapLastWins | lib/stores/fileManagerStore.ts:60-62 | with duplicate ids the last node wins |
| FileManagerStore.Merge | lib/stores/fileManagerStore.ts:88 | every field the update leaves out keeps its old value |
| FileManagerStore.Store.constructor | lib/stores/fileManagerStore.ts:50-54 | empty nodes, no selection, no project, not loading |
| FileManagerStore.Store.SetProjectId | lib/stores/fileManagerStore.ts:56 | sets only the project id |
| FileManagerStore.Store.SetNodes | lib/stores/fileManagerStore.ts:58-64 | the loop builds exactly `NodeMap(list)` and clears the loading flag; nothing else changes |
| FileManagerStore.Store.SelectNode | lib/stores/fileManagerStore.ts:66 | sets only the selection |
| FileManagerStore.Store.ToggleFolder | lib/stores/fileManagerStore.ts:68-79 | the nodes become `Toggled(old nodes, id)`; the other fields are unchanged |
| FileManagerStore.Store.UpdateNode | lib/stores/fileManagerStore.ts:81-92 | the nodes become `Updated(old nodes, id, updates)`; the other fields are unchanged |
| FileManagerStore.Store.CreateFolder | lib/stores/fileManagerStore.ts:94-117 | with a project (an id that is set and not the empty string, which `!projectId` rejects) and an accepted request the server's folder is written under its id; with no project, the empty id or a failed request nothing changes |
| FileManagerStore.Store.RenameNode | lib/stores/fileManagerStore.ts:119-141 | with a project (set and not the empty string) and an accepted request only the name of `id` is set; with no project, the empty id or a failed request nothing changes |
| FileManagerStore.Store.DeleteNode | lib/stores/fileManagerStore.ts:143-177 | with a project and an accepted request the nodes become `RemoveNodeAndChildren(id, nodes)` and the selection clears exactly when it was `id`; with no project, the empty id or a failed request nothing changes |
| FileManagerStore.Store.AddFile | lib/stores/fileManagerStore.ts:179-187 | writes the file under its id; the other fields are unchanged |
| FileManagerStore.ToggleOnlyFlipsFolders | lib/stores/fileManagerStore.ts:68-79 | toggling keeps the keys and the other nodes, flips `isExpanded` of a folder, and leaves the map unchanged for a file or a missing id |
| FileManagerStore.ToggleTwice | lib/stores/fileManagerStore.ts:68-79 | toggling twice restores the map when the folder's flag was set |
| FileManagerStore.ToggleTwiceSetsMissingFlag | lib/stores/fileManagerStore.ts:75 | a folder with no flag becomes expanded, then collapsed, so two toggles do not restore it |
| FileManagerStore.UpdateOnlyTouchesId | lib/stores/fileManagerStore.ts:81-92 | the update keeps the keys and every other node, does nothing for an absent id, and merges the given fields into `id` |
| FileManagerStore.RenameOnlyChangesName | lib/stores/fileManagerStore.ts:130-136 | a rename changes only the name of `id`; for an absent id it creates a partial node holding only the name |
| FileManagerStore.DeleteKeepsChildren | lib/stores/fileManagerStore.ts:153-168 | deletion removes exactly the key `id`; the children of `id` stay in the map because the recursive result is discarded |
| FileManagerStore.AddFileWritesOneKey | lib/stores/fileManagerStore.ts:179-187 | adding a file writes exactly its id and keeps every other node |
| AnalysisStore.WithAxis | lib/stores/analysisStore.ts:40-50 | the plots after an axis update: `xVariable` or `yVariable` of that plot set (`AxisUpdateSetsOneField`, `UpdateOfAbsentIdIsPartial`) |
| AnalysisStore.WithPosition | lib/stores/analysisStore.ts:52-62 | the plots after a position update: that plot's position set (`PositionAndSizeSetOneField`) |
| AnalysisStore.WithSize | lib/stores/analysisStore.ts:64-74 | the plots after a size update: that plot's size set (`PositionAndSizeSetOneField`) |
| AnalysisStore.PlotId | lib/stores/analysisStore.ts:18 | plot ids start with "plot-" |
| AnalysisStore.PlotIdInjective | lib/stores/analysisStore.ts:18 | different creation times give different ids |
| AnalysisStore.NewPlot | lib/stores/analysisStore.ts:19-31 | a new plot has x "index", y the variable, size 500×400, scatter type, grid on, legend off and the given position and time |
| AnalysisStore.Store.constructor | lib/stores/analysisStore.ts:15 | the plot map starts empty |
| AnalysisStore.Store.CreatePlot | lib/stores/analysisStore.ts:17-38 | returns the time-based id and writes the new plot under it |
| AnalysisStore.Store.UpdatePlotAxis | lib/stores/analysisStore.ts:40-50 | the plots become `WithAxis(old plots, id, axis, name)` |
| AnalysisStore.Store.UpdatePlotPosition | lib/stores/analysisStore.ts:52-62 | the plots become `WithPosition(old plots, id, position)` |
| AnalysisStore.Store.UpdatePlotSize | lib/stores/analysisStore.ts:64-74 | the plots become `WithSize(old plots, id, size)` |
| AnalysisStore.Store.DeletePlot | lib/stores/analysisStore.ts:76-81 | removes exactly that key |
| AnalysisStore.Store.ClearAllPlots | lib/stores/analysisStore.ts:83 | the plot map becomes empty |
| AnalysisStore.CreateKeepsOthers | lib/stores/analysisStore.ts:33-35 | creating adds one key and leaves every other plot unchanged |
| AnalysisStore.AxisUpdateSetsOneField | lib/stores/analysisStore.ts:40-50 | an axis update sets only `xVariable` or only `yVariable` of that plot and keeps the other plots |
| AnalysisStore.PositionAndSizeSetOneField | lib/stores/analysisStore.ts:52-74 | position and size updates change only that field of that plot |
| AnalysisStore.UpdateOfAbsentIdIsPartial | lib/stores/analysisStore.ts:44-71 | an update on an absent id creates a partial plot holding only the updated field |
| AnalysisStore.DeleteRemovesOneKey | lib/stores/analysisStore.ts:76-81 | deletion removes exactly that key, keeps the rest, and is a no-op for an absent key |
| AnalyticsRoute.TotalDatasets | app/api/analytics/route.ts:20 | the `reduce` of dataset counts over the projects (`TotalDatasetsCountsAll`) |
| AnalyticsRoute.TotalVisualizations | app/api/analytics/route.ts:21 | the `reduce` of visualization counts over the projects (`ComputeAnalytics`) |
| AnalyticsRoute.TotalPages | app/api/analytics/route.ts:22 | the `reduce` of page counts over the projects (`ComputeAnalytics`) |
| AnalyticsRoute.InLastWeek | app/api/analytics/route.ts:25-30 | `new Date(t) >= oneWeekAgo`, the cutoff seven days before now (`CutoffIsInclusive`) |
| AnalyticsRoute.Tally | app/api/analytics/route.ts:41-60 | the technique buckets after counting the datasets in order (`TallySum`, `TechniqueDistribution`) |
| AnalyticsRoute.StorageUsed | app/api/analytics/route.ts:63-70 | the sum of `fileSize || 0` over every dataset of every project (`StorageIsSizeSum`) |
| AnalyticsRoute.TotalDatasetsCountsAll | app/api/analytics/route.ts:21 | the dataset total is the length of all projects' datasets taken together |
| AnalyticsRoute.ProjectsThisWeek | app/api/analytics/route.ts:29-31 | the number of projects created at or after the cutoff, fixed by its definition over `InLastWeek` (boundary in `CutoffIsInclusive`); its ensures only bounds it by the number of projects |
| AnalyticsRoute.RecentCount | app/api/analytics/route.ts:34-36 | the number of one project's datasets uploaded at or after the cutoff, fixed by its definition; its ensures only bounds it by the number of datasets it filters |
| AnalyticsRoute.DatasetsThisWeek | app/api/analytics/route.ts:33-38 | `datasetsThisWeek`: the per-project recent counts summed over all projects; `DatasetsThisWeekBounded` and `ComputeAnalytics` state that it never exceeds the dataset total |
| AnalyticsRoute.DatasetsThisWeekBounded | app/api/analytics/route.ts:33-38 | recent datasets never exceed the dataset total |
| AnalyticsRoute.CutoffIsInclusive | app/api/analytics/route.ts:26-30 | a time exactly one week before now counts as recent, one millisecond earlier does not |
| AnalyticsRoute.Bump | app/api/analytics/route.ts:52-58 | each dataset adds exactly one to the bucket total |
| AnalyticsRoute.UnknownIsOther | app/api/analytics/route.ts:53-58 | any technique other than CV, EIS, BatteryCycling, CA, CP (Unknown included) goes to `other` |
| AnalyticsRoute.TallySum | app/api/analytics/route.ts:50-60 | the buckets of a dataset list sum to its length |
| AnalyticsRoute.Increment | app/api/analytics/route.ts:53-58 | the if-chain increments exactly the bucket `Bump` chooses |
| AnalyticsRoute.TechniqueDistribution | app/api/analytics/route.ts:41-60 | the nested loops produce the tally of all datasets in order |
| AnalyticsRoute.CountDatasets | app/api/analytics/route.ts:51-59 | the inner loop over one project's datasets extends the tally of everything counted before by exactly those datasets, in order |
| AnalyticsRoute.DistributionSumsToTotal | app/api/analytics/route.ts:41-60 | the technique buckets sum to the dataset total |
| AnalyticsRoute.DatasetStorageAppend | app/api/analytics/route.ts:66-68 | storage of two dataset lists adds up |
| AnalyticsRoute.StorageIsSizeSum | app/api/analytics/route.ts:63-70 | storage is the sum of sizes over all datasets, a missing size counting 0 |
| AnalyticsRoute.ComputeAnalytics | app/api/analytics/route.ts:20-83 | the response holds the totals, recent counts bounded by the totals, a distribution summing to the dataset total, and the storage sum |
| TagManager.Normalize | components/tags/TagManager.tsx:54 | `tag.trim().toLowerCase()` (`NormalizeIsNormal`) |
| TagManager.CanAdd | components/tags/TagManager.tsx:55 | the add guard: non-empty, not yet a tag, and below the cap (`AddTagIff`) |
| TagManager.Added | components/tags/TagManager.tsx:53-61 | the tags after `addTag`: the normalised tag appended when the guard holds, otherwise unchanged (`AddTagIff`, `AddKeepsGood`) |
| TagManager.AddTagIff | components/tags/TagManager.tsx:53-61 | the tags change exactly when the trimmed lower-cased input is non-empty, new and below the cap, and then it is appended |
| TagManager.NormalizeIsNormal | components/tags/TagManager.tsx:54 | a normalised tag is trimmed and already lower-case |
| TagManager.AddKeepsGood | components/tags/TagManager.tsx:55 | adding keeps the list within the cap and duplicate-free |
| TagManager.RemoveKeepsGood | components/tags/TagManager.tsx:63-67 | removing keeps the list within the cap and duplicate-free |
| TagManager.ActionsKeepGood | components/tags/TagManager.tsx:53-67 | any sequence of adds and removes keeps a capped, duplicate-free list that way |
| Sequences.RemovedMembers | components/tags/TagManager.tsx:64 | removal keeps exactly the other values |
| Sequences.RemovedAppend | components/tags/TagManager.tsx:64 | removal distributes over concatenation, so the rest keep their order |
| Sequences.RemovedNoDuplicates | components/tags/TagManager.tsx:64 | removal keeps a duplicate-free list duplicate-free |
| TagManager.CodeSumAppend | components/tags/TagManager.tsx:77 | the char-code sum of a concatenation is the sum of the parts' sums |
| TagManager.GetTagColor | components/tags/TagManager.tsx:76-79 | the colour is always one of the eight palette entries |
| TagManager.ColorIgnoresOrder | components/tags/TagManager.tsx:76-79 | swapping two parts of a tag keeps its colour |
| TagManager.QuickAdd | components/tags/TagManager.tsx:137-138 | never offers more tags than predefined |
| TagManager.QuickAddMembers | components/tags/TagManager.tsx:137-138 | a predefined tag is offered exactly when its lower-case form is not yet a tag |
| TagManager.PredefinedTrimmed | components/tags/TagManager.tsx:23-35 | the predefined tags are non-blank and trimmed |
| TagManager.QuickAddAlwaysAdds | components/tags/TagManager.tsx:137-142 | clicking an offered tag below the cap appends its lower-case form |
| TagManager.Editor.constructor | components/tags/TagManager.tsx:48-50 | starts from the existing tags, unnormalised (none when left out), a cap of 10 when none is given, and an empty input |
| TagManager.Editor.AddTag | components/tags/TagManager.tsx:53-61 | the tags become `Added`; on success the new list is reported and the input cleared, otherwise nothing is reported |
| TagManager.Editor.RemoveTag | components/tags/TagManager.tsx:63-67 | the tags lose every occurrence of the value, and the new list is reported |
| TagManager.Editor.SetNewTag | components/tags/TagManager.tsx:124 | sets only the input text |
| TagManager.Editor.HandleKeyPress | components/tags/TagManager.tsx:69-74 | Enter adds the input text as `addTag` does: on success the new list is reported and the input cleared, otherwise nothing is reported and the input is kept; other keys change nothing and report nothing |
| AdvancedFilters.Toggle | components/filters/AdvancedFilters.tsx:58-66 | the filters after `toggleArrayFilter`: the value removed (every occurrence) when present, appended when absent (`ToggleMembers`, `ToggleTwice`) |
| AdvancedFilters.With | components/filters/AdvancedFilters.tsx:64 | sets one list key and keeps every other key |
| AdvancedFilters.ToggleMembers | components/filters/AdvancedFilters.tsx:58-66 | an absent value is appended, a present value is removed with all its occurrences, and other values stay |
| AdvancedFilters.ToggleTwice | components/filters/AdvancedFilters.tsx:60-63 | for a value initially absent, toggling twice restores the list |
| AdvancedFilters.ActiveFilterCount | components/filters/AdvancedFilters.tsx:53-56 | at most seven keys count |
| AdvancedFilters.CountZeroIff | components/filters/AdvancedFilters.tsx:53-56 | the count is 0 exactly when every list is absent or empty and sort and date are unset or empty |
| AdvancedFilters.ToggleChangesCount | components/filters/AdvancedFilters.tsx:53-66 | toggling into an empty list adds one active filter, and emptying a one-value list removes one |
| AdvancedFilters.Dialog.constructor | components/filters/AdvancedFilters.tsx:35-36 | starts closed with the active filters as the local copy |
| AdvancedFilters.Dialog.ApplyFilters | components/filters/AdvancedFilters.tsx:42-45 | emits the local filters unchanged and closes |
| AdvancedFilters.Dialog.ClearFilters | components/filters/AdvancedFilters.tsx:47-51 | the local filters and the emitted value become `{}` |
| AdvancedFilters.Dialog.ToggleArrayFilter | components/filters/AdvancedFilters.tsx:58-66 | the local filters become `Toggle(old, key, value)` |
| AdvancedFilters.Dialog.SetDateStart | components/filters/AdvancedFilters.tsx:103-107 | sets the start date and keeps any end date |
| AdvancedFilters.Dialog.SetDateEnd | components/filters/AdvancedFilters.tsx:115-119 | sets the end date and keeps any start date |
| AdvancedFilters.Dialog.SetSortBy | components/filters/AdvancedFilters.tsx:192 | sets only the sort field |
| AdvancedFilters.Dialog.SetSortOrder | components/filters/AdvancedFilters.tsx:202 | sets only the sort order |
| AdvancedFilters.TagsFor | components/filters/AdvancedFilters.tsx:238-246 | one labelled tag per list value, in order, none for an absent list |
| AdvancedFilters.DateTag | components/filters/AdvancedFilters.tsx:247-249 | one tag exactly when a date range is set |
| AdvancedFilters.PushAll | components/filters/AdvancedFilters.tsx:239 | the `forEach` push appends exactly the tags of the list |
| AdvancedFilters.ActiveFilterTags | components/filters/AdvancedFilters.tsx:236-251 | returns null exactly when there are no tags, otherwise the tag list |
| AdvancedFilters.FilterTagCount | components/filters/AdvancedFilters.tsx:238-249 | there is one tag per technique, instrument and status value plus one for a date range; tags, sort field and sort order show nothing |
| AdvancedFilters.TechniqueTagsFirst | components/filters/AdvancedFilters.tsx:238-240 | technique tags come first, in list order |
| AdvancedFilters.SortOnlyCountsButShowsNothing | components/filters/AdvancedFilters.tsx:53-56 | a sort order alone counts as an active filter but shows no tag in the list drawn at lines 236-251 |
| DataComparison.WithoutId | components/analysis/DataComparison.tsx:31 | removal never lengthens the selection |
| DataComparison.AddIff | components/analysis/DataComparison.tsx:24-28 | the selection changes exactly when fewer than 4 are selected and the id is new, and then the dataset is appended |
| DataComparison.AddKeepsValid | components/analysis/DataComparison.tsx:25 | adding keeps at most 4 datasets with distinct ids |
| DataComparison.WithoutIdMembers | components/analysis/DataComparison.tsx:30-32 | removal keeps exactly the datasets with another id |
| DataComparison.WithoutIdAppend | components/analysis/DataComparison.tsx:30-32 | removal distributes over concatenation, so the others keep their order |
| DataComparison.RemoveKeepsValid | components/analysis/DataComparison.tsx:30-32 | removing keeps at most 4 datasets with distinct ids |
| DataComparison.AddRefused | components/analysis/DataComparison.tsx:25 | a full selection or a known id leaves the selection unchanged |
| DataComparison.ResultsNeedTwo | components/analysis/DataComparison.tsx:133-149 | the comparison appears once two distinct datasets are selected and not with one |
| DataComparison.Comparison.constructor | components/analysis/DataComparison.tsx:18-19 | starts with no selection in overlay mode |
| DataComparison.Comparison.AddDataset | components/analysis/DataComparison.tsx:24-28 | the selection becomes `Added(old, dataset)` |
| DataComparison.Comparison.RemoveDataset | components/analysis/DataComparison.tsx:30-32 | the selection becomes `WithoutId(old, id)` |
| DataComparison.Comparison.SetComparisonMode | components/analysis/DataComparison.tsx:52-59 | sets only the mode |
| DataTable.FilteredRows | components/analysis/DataTable.tsx:36-40 | the search: every row when the query is empty, otherwise the rows with a cell whose lower-cased text contains the lower-cased query (`MatchingMembers`, `QueryCaseIgnored`) |
| DataTable.Compare | components/analysis/DataTable.tsx:46-62 | the sort comparator: numeric difference when both cells are numbers, `localeCompare` otherwise, negated for descending (`CompareAntisymmetric`, `NumericCellsCompareByValue`) |
| DataTable.SortedRows | components/analysis/DataTable.tsx:43-63 | the filtered rows, sorted by the comparator when a sort column is set (`SortedRowsSpec`) |
| DataTable.Table.Paginated | components/analysis/DataTable.tsx:67-70 | `paginatedRows` for the current state, given a positive page size: at most a page of rows; for a page from 1 to the last, the non-empty window of the sorted rows from `(currentPage - 1) * pageSize`; past the last page, nothing |
| DataTable.PageRows | components/analysis/DataTable.tsx:67-70 | `slice((page - 1) * pageSize, page * pageSize)` (`PageInRange`, `PagesCoverRows`) |
| DataTable.ExportCsv | components/analysis/DataTable.tsx:82-85 | the export content: the columns joined by ",", then each row's cells in quotes joined by ",", lines joined by "\n" (`ExportLines`, `ExportLineStructure`) |
| DataTable.MatchingRows | components/analysis/DataTable.tsx:37-39 | the search never adds rows |
| DataTable.MatchingMembers | components/analysis/DataTable.tsx:37-39 | a row is kept exactly when some cell's lower-cased text contains the lower-cased query |
| DataTable.MatchingAppend | components/analysis/DataTable.tsx:37-39 | filtering distributes over concatenation, so kept rows keep their order |
| DataTable.QueryCaseIgnored | components/analysis/DataTable.tsx:38 | a query and its lower-cased form match the same rows |
| DataTable.CompareAntisymmetric | components/analysis/DataTable.tsx:46-62 | with an antisymmetric collation the comparator is antisymmetric in both directions |
| DataTable.InsertPermutes | components/analysis/DataTable.tsx:46 | insertion adds exactly the new row to the multiset |
| DataTable.SortPermutes | components/analysis/DataTable.tsx:46 | sorting is a permutation |
| DataTable.InsertSorted | components/analysis/DataTable.tsx:46 | inserting into a sorted list keeps it sorted for an antisymmetric comparator |
| DataTable.SortSorts | components/analysis/DataTable.tsx:46 | the sort's result is sorted for an antisymmetric comparator |
| DataTable.SortKeepsSorted | components/analysis/DataTable.tsx:46 | an already sorted list is left as it is (the sort is stable) |
| DataTable.SortedRowsSpec | components/analysis/DataTable.tsx:43-63 | the sorted rows are a permutation of the filtered rows, sorted by the column when the collation is antisymmetric, and unchanged with no sort column |
| DataTable.NumericCellsCompareByValue | components/analysis/DataTable.tsx:51-61 | two numeric cells compare by value, and descending reverses the sign |
| DataTable.EmptyTextSortsAsZero | components/analysis/DataTable.tsx:51-56 | an empty cell is `Number("") = 0` and sorts before 1 |
| DataTable.TotalPages | components/analysis/DataTable.tsx:66 | the page count is the ceiling of rows/pageSize |
| DataTable.PageAtMostPageSize | components/analysis/DataTable.tsx:67-70 | a page has at most pageSize rows |
| DataTable.PageInRange | components/analysis/DataTable.tsx:67-70 | a page between 1 and the page count is the non-empty window [(p−1)·s, p·s) clipped to the row count |
| DataTable.PageBeyondLastEmpty | components/analysis/DataTable.tsx:67-70 | a page past the last is empty |
| DataTable.PagesUpToPrefix | components/analysis/DataTable.tsx:66-70 | the first k pages concatenated are the first k·s rows |
| DataTable.PagesCoverRows | components/analysis/DataTable.tsx:66-70 | all pages concatenated are exactly the rows |
| DataTable.Table.constructor | components/analysis/DataTable.tsx:27-31 | page 1, 20 rows per page, empty query, no sort column, ascending |
| DataTable.Table.HandleSort | components/analysis/DataTable.tsx:72-79 | on the current column the direction flips; on a new column that column is chosen ascending; nothing else changes |
| DataTable.Table.SetSearchQuery | components/analysis/DataTable.tsx:118-121 | sets the query and resets to page 1 |
| DataTable.Table.SetPageSize | components/analysis/DataTable.tsx:199-202 | sets the page size and resets to page 1 |
| DataTable.Table.GoToPage | components/analysis/DataTable.tsx:213-249 | a pagination button sets the page unless it is disabled |
| DataTable.Table.FirstPage | components/analysis/DataTable.tsx:216-217 | goes to page 1; page size, query and sort are kept |
| DataTable.Table.PreviousPage | components/analysis/DataTable.tsx:224-225 | goes back one page unless on page 1; page size, query and sort are kept |
| DataTable.Table.NextPage | components/analysis/DataTable.tsx:237-238 | goes forward one page unless on the last page; page size, query and sort are kept. Taken alone the handler also moves on when there are 0 pages, but the controls are only shown when there is more than one page (line 193), so the interface never reaches that case |
| DataTable.Table.LastPage | components/analysis/DataTable.tsx:245-246 | goes to the page count; page size, query and sort are kept |
| DataTable.ExportLines | components/analysis/DataTable.tsx:82-85 | the header is the columns joined by ","; there are n+1 lines, and 2 when there are no rows |
| DataTable.ExportLineStructure | components/analysis/DataTable.tsx:82-85 | the content is the lines joined by "\n", and splits back into them when no cell holds a line break |
| DataTable.QuoteInCellNotEscaped | components/analysis/DataTable.tsx:85 | the cell `a"b` is written `"a"b"`, whose inside does not have its quotes paired |
| PlotVisualization.SingleColumn | components/visualization/PlotVisualization.tsx:45-75 | the one-column trace (`SingleColumnSpec`) |
| PlotVisualization.TwoColumns | components/visualization/PlotVisualization.tsx:78-112 | the x/y trace of two columns (`TwoColumnSpec`, `TwoColumnPairingShifts`) |
| PlotVisualization.MultiColumn | components/visualization/PlotVisualization.tsx:115-147 | one trace per selected column (`MultiColumnSpec`) |
| PlotVisualization.Parsed | components/visualization/PlotVisualization.tsx:47 | one parse result per row |
| PlotVisualization.Numbers | components/visualization/PlotVisualization.tsx:47 | dropping NaNs never adds values |
| PlotVisualization.Positions | components/visualization/PlotVisualization.tsx:48 | x is 1, 2, …, n |
| PlotVisualization.ColumnName | components/visualization/PlotVisualization.tsx:57 | a trace name is never empty |
| PlotVisualization.Derive | components/visualization/PlotVisualization.tsx:41-148 | the result is null exactly when no column is selected |
| PlotVisualization.NumbersMembers | components/visualization/PlotVisualization.tsx:47 | a value survives the NaN filter exactly when some row parsed to it |
| PlotVisualization.NumbersAppend | components/visualization/PlotVisualization.tsx:47 | the NaN filter distributes over concatenation, so the values stay in row order |
| PlotVisualization.ColumnValuesMembers | components/visualization/PlotVisualization.tsx:47 | a column's values are exactly the numbers some row's cell parses to |
| PlotVisualization.ColumnValuesAppend | components/visualization/PlotVisualization.tsx:47 | a column's values over two row blocks are the concatenation of each block's values |
| PlotVisualization.SingleColumnSpec | components/visualization/PlotVisualization.tsx:45-75 | one column gives one trace: y is the column's numbers, x is 1..|y|, and the trace type is the plot type |
| PlotVisualization.TwoColumnSpec | components/visualization/PlotVisualization.tsx:78-112 | two columns give one trace; x and y are prefixes of each column's numbers, both cut to the shorter length, so their lengths are equal; histogram and box become scatter |
| PlotVisualization.MultiColumnSpec | components/visualization/PlotVisualization.tsx:115-147 | three or more columns give one trace per column, with that column's numbers, its name and colour palette[k mod 6] |
| PlotVisualization.ModeSpec | components/visualization/PlotVisualization.tsx:56 | mode is "markers" exactly for scatter, "lines+markers" exactly for line, and undefined otherwise |
| PlotVisualization.ColumnNameFallback | components/visualization/PlotVisualization.tsx:57 | a non-empty header is the name, otherwise the name starts with "Column " |
| PlotVisualization.TwoColumnPairingShifts | components/visualization/PlotVisualization.tsx:82-91 | rows [a] and [b, c] plot a against c: the NaN (missing) cell of the first row shifts the pairing |
| PlotVisualization.PairingShiftExample | components/visualization/PlotVisualization.tsx:82-91 | rows ["1"] and ["2","5"] plot x [1] against y [5] |
| PublicationFormat.Analysis | components/publication/PublicationFormatAssistant.tsx:102-229 | the outcome of `analyzeManuscript`: nothing without a journal or with blank text, otherwise the detected issues of the chosen journal (`AnalysisGuard`, `AnalyzeManuscript`) |
| PublicationFormat.CheckedWordCount | components/publication/PublicationFormatAssistant.tsx:118 | `text.split(/\s+/).length`, empty end parts counted (`WordLimitErrorIff`, `CheckedCountsLeadingSpace`) |
| PublicationFormat.HasApaCitation | components/publication/PublicationFormatAssistant.tsx:169 | `/\([A-Z][a-z]+,\s*\d{4}\)/.test(text)` (`ApaCitationFound`, `CitationErrorIff`) |
| PublicationFormat.MatchAt | components/publication/PublicationFormatAssistant.tsx:192 | the abstract pattern tried at one position, with its lazy capture (`MatchAtIff`) |
| PublicationFormat.FindJournalFrom | components/publication/PublicationFormatAssistant.tsx:117 | a found journal has the id asked for; none means no later journal has it |
| PublicationFormat.FindsEveryJournal | components/publication/PublicationFormatAssistant.tsx:49-117 | every journal of the table is found by its id |
| PublicationFormat.Run | components/publication/PublicationFormatAssistant.tsx:169 | a run is the longest stretch of characters that pass the test |
| PublicationFormat.FirstKeywordFrom | components/publication/PublicationFormatAssistant.tsx:192 | finds the first "introduction" or "keywords" from a position on, and none means there is no later one |
| PublicationFormat.FirstMatchFrom | components/publication/PublicationFormatAssistant.tsx:192 | no result means no later position matches the abstract pattern |
| PublicationFormat.DetectedIssues | components/publication/PublicationFormatAssistant.tsx:120-218 | the list always holds at least the data-availability warning and the formatting suggestion |
| PublicationFormat.PushWordCountIssue | components/publication/PublicationFormatAssistant.tsx:122-130 | appends the word-limit error when there is one |
| PublicationFormat.PushStructureIssues | components/publication/PublicationFormatAssistant.tsx:132-166 | appends the missing-section issues in source order |
| PublicationFormat.PushCitationIssue | components/publication/PublicationFormatAssistant.tsx:168-179 | appends the citation error when there is one |
| PublicationFormat.PushAbstractIssues | components/publication/PublicationFormatAssistant.tsx:191-210 | appends the abstract issue when there is one |
| PublicationFormat.DetectIssues | components/publication/PublicationFormatAssistant.tsx:117-227 | the sequence of conditional pushes produces `DetectedIssues(journal, text)` |
| PublicationFormat.AnalyzeManuscript | components/publication/PublicationFormatAssistant.tsx:102-229 | the handler's outcome equals `Analysis(selected, text)` |
| PublicationFormat.AnalysisGuard | components/publication/PublicationFormatAssistant.tsx:103-110 | nothing is analysed exactly when no journal is chosen or the text is blank; otherwise a known journal gets its detected issues |
| PublicationFormat.SuggestionAlwaysLast | components/publication/PublicationFormatAssistant.tsx:212-227 | the formatting suggestion is always last and the "no critical issues" entry never appears |
| PublicationFormat.PartCategories | components/publication/PublicationFormatAssistant.tsx:120-218 | each check contributes only issues of its own category and kind |
| PublicationFormat.InParts | components/publication/PublicationFormatAssistant.tsx:120-218 | an issue is in the list exactly when one of the checks contributes it |
| PublicationFormat.StructureIssuesDistinct | components/publication/PublicationFormatAssistant.tsx:138-209 | the four structure issues are distinct values |
| PublicationFormat.WordLimitErrorIff | components/publication/PublicationFormatAssistant.tsx:118-130 | a word-count error is present exactly when `split(/\s+/).length` exceeds the word limit |
| PublicationFormat.StructureIssuesIff | components/publication/PublicationFormatAssistant.tsx:133-166 | each missing-section issue is present exactly when its case-insensitive keyword is absent; "discussion" is never reported |
| PublicationFormat.CitationErrorIff | components/publication/PublicationFormatAssistant.tsx:169-179 | the citation error is present exactly for a Nature-style journal with an APA `(Name, YYYY)` citation |
| PublicationFormat.DataAvailabilityAlways | components/publication/PublicationFormatAssistant.tsx:181-189 | the data-availability warning is always present |
| PublicationFormat.AbstractIssuesIff | components/publication/PublicationFormatAssistant.tsx:191-210 | the abstract error is present exactly when the pattern does not match; the abstract-length warning exactly when it matches and its words exceed the limit |
| PublicationFormat.IssueCount | components/publication/PublicationFormatAssistant.tsx:120-218 | the list length is the number of failed checks plus the two standing entries |
| PublicationFormat.MatchAtIff | components/publication/PublicationFormatAssistant.tsx:192 | the matcher succeeds at a position exactly when "abstract", one or more separators, at least one captured character and a keyword follow there |
| PublicationFormat.FirstMatchIff | components/publication/PublicationFormatAssistant.tsx:192 | scanning from the start finds a match exactly when the pattern occurs somewhere |
| PublicationFormat.AbstractFoundIff | components/publication/PublicationFormatAssistant.tsx:192-193 | an abstract is captured exactly when the case-insensitive pattern occurs in the text |
| PublicationFormat.ApaCitationFound | components/publication/PublicationFormatAssistant.tsx:169 | any text containing `(Name, YYYY)` with a capitalised name of two or more letters has an APA citation |
| PublicationFormat.DisplayedWordCount | components/publication/PublicationFormatAssistant.tsx:252 | the counter under the text box: the white-space split with empty parts dropped; `CheckedCountsLeadingSpace` shows it differs from the checked count and never exceeds it |
| PublicationFormat.CheckedCountsLeadingSpace | components/publication/PublicationFormatAssistant.tsx:118 | " a" is checked as 2 words but displayed as 1 (the counter at line 252), and the displayed count never exceeds the checked one |
| RenameInput.SaveDecision | components/files/RenameInput.tsx:15-22 | the callback `handleSave` calls (`SaveIff`, `SavedNameIsTrimmed`) |
| RenameInput.KeyDown | components/files/RenameInput.tsx:24-32 | the callback and default-action suppression of a key press (`KeyDownSpec`) |
| RenameInput.SaveIff | components/files/RenameInput.tsx:15-22 | saving happens exactly for a non-blank trimmed text different from the initial name, and saves that trimmed text |
| RenameInput.SavedNameIsTrimmed | components/files/RenameInput.tsx:16-18 | a saved name is non-empty, trimmed and new |
| RenameInput.UntouchedOrBlankCancels | components/files/RenameInput.tsx:17-20 | an untouched trimmed name cancels, and so does a blank text |
| RenameInput.UntouchedPaddedNameSaves | components/files/RenameInput.tsx:13-18 | an untouched name " a" is saved as "a", because the trimmed text differs from the initial value |
| RenameInput.KeyDownSpec | components/files/RenameInput.tsx:24-32 | Enter saves, Escape cancels, other keys call nothing; the default action is suppressed exactly when a callback runs |
| RenameInput.Box.constructor | components/files/RenameInput.tsx:13 | the box starts with the initial name |
| RenameInput.Box.SetValue | components/files/RenameInput.tsx:37 | typing sets the text |
| RenameInput.Box.HandleSave | components/files/RenameInput.tsx:15-22 | calls exactly one of save or cancel, as `SaveDecision` chooses |
| RenameInput.Box.HandleBlur | components/files/RenameInput.tsx:38 | losing focus behaves as saving |
| RenameInput.Box.HandleKeyDown | components/files/RenameInput.tsx:24-32 | the key's effect is `KeyDown(key, value, initialValue)` |

## Left out

- File reading (`File.text()`), the Blob/DOM download plumbing, `fetch` and the
  database queries are I/O. The parsers take the text, the exporters return
  content and a file name, and server outcomes are a `serverOk` flag.
- `exportToJSON` is left out, because its content is `JSON.stringify` output and
  its file-name rule is the one modelled for CSV.
- The CSV parser is left out, because it wraps PapaParse.
- The curve fitting behind the analysis panel is floating-point numerics in a
  file that is not part of this model.
- Number formatting is left out. This covers `String(number)` (the `render`
  parameter), `toFixed`, the IEEE-754 edge cases of `parseFloat` and `Number`
  (hexadecimal, `Infinity`, rounding), and any NaN value stored in a table cell.
  Numbers are exact reals.
- `localeCompare` is a `collate` parameter. The sort results are proved for any
  collation that is antisymmetric.
- DataTable.SortedRows: modelled as a stable insertion sort rather than the
  engine's `Array.prototype.sort`. The two agree for a consistent comparator. For
  an inconsistent one (NaN, a collation that is not antisymmetric) the engine's
  order is unspecified, and the model does not capture it.
- Case folding is ASCII only. This applies to `toLowerCase` and the `/i` flag;
  non-ASCII letters are not folded.
- Strings are sequences of Unicode scalar values, while JavaScript strings are
  sequences of UTF-16 code units. A character outside the Basic Multilingual
  Plane (an emoji, say) is one element here and two code units there. This
  affects every length or index the source reads from a string: `text.length`
  in `estimateTokens` (so `Math.ceil(length / 4)` can come out lower here),
  the `split('')` and `charCodeAt` of `getTagColor` (one code point here, two
  surrogate codes there), and the positions the abstract and citation
  patterns match at. Texts made of Basic Multilingual Plane characters agree.
- CSV quoting (`DataExporter.FieldText`) happens only when a field holds `,`
  or `"`, as the source does. A field holding a line break is written bare
  (`BareFieldUnquoted`), where section 2.6 of RFC 4180 would quote it, so
  `CsvLineCount` holds only for fields without line breaks.
- AnalyticsRoute.InLastWeek: the week cutoff is now − 7·24 h in milliseconds. A
  calendar `setDate(−7)` across a daylight-saving change differs by an hour.
- The voltage lookup in the battery-cycling builder is computed but unused. It
  cannot make the builder fail, and it is not modelled.
- `hasDiscussion` and `hasNumberedCitations` are computed but never used, so they
  are not modelled.
- PublicationFormat.AnalyzeManuscript:
  - the two-second simulated delay, the toasts and the `isAnalyzing` flag are
    left out;
  - an id missing from the journal table (a crash at the non-null assertion)
    becomes the `UnknownJournal` outcome.
- FileManagerStore: nodes are records of optional fields, and a node's `type`
  change through `updateNode` is modelled as any other field. The node fields
  `extension`, `size`, `url` and `projectId` are not part of the record: no
  modelled action reads or sets them beyond copying the whole node, and the
  `FileNode`/`FolderNode` split of which values each type allows (a file's
  `isExpanded` always false, a folder's `size` null) is not enforced. The async actions
  read the nodes before the request returns; a concurrent change in that window
  (a stale snapshot) is not modelled. The server's new-folder object is a
  parameter.
- `FileManagerStore.RemoveNodeAndChildren` and `FileManagerStore.Store.DeleteNode`
  model the recursive child removal inside `deleteNode` by its effect, since its
  result is discarded. Its non-termination is not modelled. A node stored under a key
  different from its own `id` arises when `updateNode` changes the `id` field.
  If that node's `parentId` leads back to that `id`, each recursive call finds it
  again, because every call searches a map that still holds that key.
  (Nodes stored under their own ids cannot loop, even in a cyclic parent chain,
  because each call searches a map that has lost its parent's key.) For example:
  `setNodes` with nodes `x` and `k`, then `updateNode("k", {id: "x", parentId: "x"})`,
  then `deleteNode("x")`. There the source overflows the stack, the `catch` swallows
  the error, and `nodes` and the selection stay as they were; the model removes the
  key `x` and clears a selection of `x`.
- Presentation is left out: plot layouts beyond the fields stated, colours of
  badges, dialogs, toolbars, the plot copy/download handlers, and the
  `isOpen`/`isAnalyzing` flags outside the dialogs modelled.
- Simulated dashboards driven by `Math.random` and timers are left out, along
  with the chat, AI and literature routes. They are outside the core.
