# Document extraction tool — a Dafny model

The tool reads a sheet (an Excel workbook loaded with no header row) that
lists engineering functions and, under each function, its documents. The
user picks a function name and one or more stage names. The tool answers
with the documents of that function that carry a recognised marker
("DR", "D", "U" or "X,D") on a selected stage. Each document becomes one
row: its name, two blanks, the six detail columns, and one coloured dot
(grey, orange or green) or blank per selected stage found among the stage
labels. When there is nothing
to show, the answer is one message row instead: the sheet did not load,
the function name is unknown, no document matches, or the extraction failed.

The model covers:

- the query `get_matching_documents`;
- the marker vocabulary and its colours;
- the two choice lists the tool offers: function names and stage names.

Modules:

- `Sheet` (`sheet.dfy`): cells, the fixed layout convention (header row 3,
  key column 3, detail columns 5-10, stage columns 12-18), and Python's
  `str`, `strip()` and `isupper()` as the tool applies them to cells.
- `Markers` (`markers.dfy`): the marker vocabulary, the colour table, and
  the indicator a stage cell shows.
- `Extraction` (`extraction.dfy`): the query.
  - `MatchingDocuments` is its specification, as functions.
  - `GetMatchingDocuments`, `FindBlockEnd`, `CollectRows` and `BuildRow`
    are the tool's loops as methods. Each is proved equal to its
    specification function.
- `QueryProperties` (`properties.dfy`): what an answer is, case by case,
  stated in terms of the sheet's rows.
- `Ordering` (`ordering.dfy`): Python's string order and `sorted(set(...))`.
- `Choices` (`choices.dfy`): the function-name and stage-name choices.
- `Scenario` (`scenario.dfy`): a small concrete sheet with the answers
  proved for it.
- `Display` (`display.dfy`): the width of the result table, the message-row
  defect described under Findings, and its correction.

Loading the workbook is a parameter: a `Source` is either the grid or the
message of the loading exception. Rendering is reduced to an abstract
`Indicator` (a dot of a colour, or blank).

The model follows the code, which differs from what a reader might
expect:

- Stage names are offered as `str` of the label, without trimming
  (app.py:103).
- The answer is not always of uniform width:
  - a load-failure row has 4 cells plus one per selected stage;
  - the other message rows have 10 cells plus one per selected stage;
  - document rows have 9 cells plus one per resolved stage.
- The "no match" row starts with four cells (message and three blanks),
  not three.
- A detail row whose document name is a number makes the query fail with
  the extraction-error row. The number has no `strip`, and the handler at
  app.py:78-79 catches the error.

## Model

| member | source | states |
|---|---|---|
| Sheet.Str | app.py:35 | definition: Python's `str` of a cell, "nan" for a missing value, the printed text of a number |
| Sheet.IsSpace | app.py:35 | definition: `str.isspace` on an ASCII character: codes 9 to 13 and 28 to 32 |
| Sheet.IsUpper | app.py:43 | definition: `str.isupper` on ASCII text: some upper-case letter and no lower-case one |
| Sheet.IsBlank | app.py:49 | definition: nothing but whitespace, the test `strip() == ''` |
| Sheet.Filled | app.py:49 | definition: present (`notna`) and not blank once trimmed |
| Sheet.IsDetail | app.py:48-50 | definition: a document-level row has columns 0 and 1 both filled |
| Sheet.KeyMatches | app.py:35 | definition: the trimmed `str` of the key cell equals the function name |
| Sheet.EndsBlock | app.py:42-44 | definition: the scan stops at a key cell that is missing or upper-case once trimmed |
| Sheet.Strip | app.py:35 | `strip()` leaves no whitespace at either end and never lengthens the text |
| Sheet.TrimLeftIsSuffix | app.py:35 | trimming on the left keeps a suffix and drops only whitespace |
| Sheet.TrimRightIsPrefix | app.py:35 | trimming on the right keeps a prefix and drops only whitespace |
| Sheet.StripIsInner | app.py:35 | `strip()` gives the text between a run of leading and a run of trailing whitespace; with the ends of the result not whitespace, this fixes the result |
| Sheet.StripEmptyIff | app.py:49 | a text strips to "" exactly when it is all whitespace |
| Sheet.BlankIffStripsEmpty | app.py:55 | the blank test used for names agrees with `strip() == ''` |
| Markers.Hex | app.py:21-26 | grey is exactly "#808080", orange exactly "#FFA500", green exactly "#008000" |
| Markers.ColoursCoverVocabulary | app.py:18-26 | the colour table has an entry for exactly the markers of the vocabulary |
| Markers.IsMarker | app.py:57 | definition: a stage cell matches when it is text equal to one of the four markers; numbers and missing values never match |
| Markers.IndicatorOf | app.py:63-71 | grey exactly for "DR", orange exactly for "U", green exactly for "D" or "X,D", blank exactly when the cell is not a marker (numbers and missing values never are) |
| Extraction.StageHeaders | app.py:32 | the stage labels are the seven header cells of columns 12 to 18, in order |
| Extraction.DetailHeaders | app.py:33 | the detail headers are the six header cells of columns 5 to 10, in order |
| Extraction.FirstIndex | app.py:34 | `list.index`: a position holding the label, with no earlier one |
| Extraction.StageIndices | app.py:34 | at most one column per selected name; every column is a stage column whose label is text and is that label's first occurrence |
| Extraction.StageIndicesAppend | app.py:34 | the columns of a concatenated selection are the concatenated columns |
| Extraction.StageIndicesDropsAbsent | app.py:34 | a name that is not a label is dropped and changes nothing else |
| Extraction.StageIndicesOne | app.py:34 | a single label resolves to the column of its first occurrence |
| Extraction.StageIndicesAllResolve | app.py:34 | when every name is a label, each resolves, in the caller's order, to its first occurrence |
| Extraction.FindKeyFrom | app.py:35 | the scan finds a row whose trimmed key equals the name, and no matching row lies before it |
| Extraction.FirstKeyRow | app.py:35-39 | none exactly when no key cell of the sheet, trimmed, equals the name; otherwise the first such row |
| Extraction.ScanEnd | app.py:40-45 | the scan stops at the first row that closes a block, or at the end of the sheet |
| Extraction.BlockEnd | app.py:40-45 | the block ends after its start, at the first later row whose key cell is missing or upper-case once trimmed, or at the end of the sheet |
| Extraction.FindBlockEnd | app.py:40-45 | the `while` loop computes exactly that end |
| Extraction.Block | app.py:47 | every row of the block has every column the layout uses |
| Extraction.AnyMarker | app.py:56-57 | definition: some selected stage cell of the row is a marker |
| Extraction.IsKept | app.py:53-57 | definition: a kept row is a detail row whose name is non-blank text and that has a marker on a selected stage |
| Extraction.NumericName | app.py:54-55 | definition: a detail row whose document name is a number, on which `strip` raises |
| Extraction.StripErrorMessage | app.py:79 | definition: the text of the `AttributeError` raised by `strip` on an `int` or a `float` |
| Extraction.Project | app.py:58-71 | a document row is the name, two blanks, the detail values of columns 5 to 10 in order, then the indicator of each selected stage cell in order |
| Extraction.BuildRow | app.py:58-71 | the cell-by-cell construction yields exactly that projection |
| Extraction.Collect | app.py:52-72 | the rows a block yields all have 9 cells plus one per resolved stage, and are no more than the block's rows |
| Extraction.CollectRows | app.py:52-72 | the loop over the block, with its early failure, computes exactly that result |
| Extraction.KeptIndices | app.py:48-57 | the positions listed are of kept rows, strictly increasing |
| Extraction.KeptIndicesExactly | app.py:48-57 | a position is listed exactly when its row is a detail row with a non-blank text name and a marker on a selected stage |
| Extraction.CollectErrIff | app.py:53-55 | a block fails exactly when one of its detail rows has a numeric name |
| Extraction.CollectErrFirst | app.py:53-55 | a failure carries the number type of the block's first numeric name |
| Extraction.CollectOk | app.py:52-72 | without numeric names, the block yields exactly its kept rows, projected, in block order |
| Extraction.CollectErrPersists | app.py:53-55 | once a prefix of the block has failed, the rest of the block changes nothing |
| Extraction.Sentinel | app.py:37 | a message row is the message followed by only blanks, one per unit of padding |
| Extraction.MatchingDocuments | app.py:28-79 | the answer is never empty |
| Extraction.GetMatchingDocuments | app.py:28-79 | the step-by-step query computes exactly the specified answer |
| Ordering.Below | app.py:92 | definition: Python's `<` on strings, code point by code point, a proper prefix first |
| Ordering.BelowIrreflexive | app.py:92 | no string comes before itself |
| Ordering.BelowTransitive | app.py:92 | the string order is transitive |
| Ordering.BelowTotal | app.py:92 | two different strings are ordered one way or the other |
| Ordering.EmptyFirst | app.py:97 | "" comes before every other string, so the leading "" keeps the list sorted |
| Ordering.Insert | app.py:92 | inserting into an increasing list keeps it increasing and adds exactly that string |
| Ordering.SortedSet | app.py:92 | `sorted(set(xs))` is strictly increasing and holds exactly the strings of `xs` |
| Ordering.SortedListingUnique | app.py:92 | two strictly increasing lists with the same strings are equal, so the listing is the only one possible |
| Choices.IsFunctionHeading | app.py:87-91 | definition: a number in column 0 and columns 1 and 2 missing |
| Choices.Offers | app.py:92 | definition: a heading row whose key cell is present and not blank offers its trimmed `str` |
| Choices.HeadingNames | app.py:87-92 | a name is collected exactly when some function heading row (number in column 0, columns 1 and 2 missing) has it as its non-blank trimmed key |
| Choices.FunctionNames | app.py:86-97 | "" first, strictly increasing, only "" when the sheet did not load, and otherwise the rest are exactly the offered names |
| Choices.ListedFunctionIsFound | app.py:35-37 | a listed function name is always found by the query |
| Choices.FilledPositions | app.py:103 | the positions listed are of filled cells, strictly increasing |
| Choices.FilledPositionsExactly | app.py:103 | a position is listed exactly when its cell is present and not blank |
| Choices.Labels | app.py:103 | a label is listed exactly when some cell is present and not blank and its `str` is the label |
| Choices.LabelsInOrder | app.py:103 | one label per filled cell, in cell order, repeats kept: the j-th label is the `str` of the j-th filled cell |
| Choices.StageNames | app.py:102-105 | none when the sheet did not load; at most seven; otherwise the `str` of each filled stage label, in column order |
| Choices.SelectedStagesResolve | app.py:34 | when no stage label is a number, a selection from the offered names resolves every name |
| Choices.NumericStageLabelDropped | app.py:34 | a numeric stage label is offered but never resolves to a column |
| QueryProperties.LoadFailureAnswer | app.py:29-30 | a sheet that failed to load gives one row: the loader's message, then three blanks and one blank per selected stage |
| QueryProperties.MessagesDiffer | app.py:37-79 | the not-found, no-match and extraction-error texts are distinct |
| QueryProperties.FoundIsNotNotFound | app.py:35-39 | once the name is found, the answer is not the not-found row |
| QueryProperties.KeyNotFoundIff | app.py:35-37 | the answer is the not-found row exactly when no trimmed key cell equals the name |
| QueryProperties.FoundAnswer | app.py:39-79 | once found, the answer is the error row, the no-match row or the yielded rows, as the block decides |
| QueryProperties.BlockRows | app.py:47 | the block is the sheet's rows after the start, up to its end |
| QueryProperties.DocumentRowNarrower | app.py:58-75 | a document row is narrower than every message row |
| QueryProperties.NumericNameInBlock | app.py:47-55 | the block has a numeric name exactly when the sheet has one between start and end |
| QueryProperties.NoNumericInBlock | app.py:47-55 | no numeric name in the sheet's rows means none in the block |
| QueryProperties.ExtractionErrorIff | app.py:53-79 | once found, the answer is an extraction-error row exactly when a detail row of the block has a numeric name |
| QueryProperties.ExtractionErrorNamesFirst | app.py:53-79 | the error row names the type of the block's first numeric name |
| QueryProperties.FirstNumericOfSheet | app.py:47-55 | the block fails with the type of the sheet's first numeric name after the start |
| QueryProperties.FirstNumericOfSlice | app.py:47-55 | a run of sheet rows fails with the type of its first numeric name |
| QueryProperties.FirstNumericOfBlock | app.py:53-55 | a block fails with the type of its first numeric name |
| QueryProperties.FirstIsUnique | app.py:53-55 | the first numeric name of a block is unique |
| QueryProperties.NoMatchIff | app.py:74-75 | with no numeric name, the answer is the no-match row exactly when no row of the block is kept |
| QueryProperties.EmptyYieldIff | app.py:52-75 | with no numeric name, a block yields nothing exactly when none of its rows is kept |
| QueryProperties.KeptInBlock | app.py:47-57 | the block has a kept row exactly when the sheet has one between start and end |
| QueryProperties.DocumentRows | app.py:47-77 | with no numeric name and some kept row, the answer is exactly the kept sheet rows, projected, in sheet order |
| QueryProperties.KeptRowsOfSheet | app.py:47-72 | with no numeric name, the block yields the kept sheet rows, projected, in sheet order |
| QueryProperties.AnswerWidth | app.py:30-79 | all rows of an answer are equally wide: 4 plus one per selected stage after a load failure, 10 plus one per selected stage for a message, 9 plus one per resolved stage for documents |
| Scenario.ExampleKeyRow | app.py:35 | in the example sheet "PUMP01" is found at row 4 |
| Scenario.TitleContinues | app.py:43 | a title with lower-case letters does not close a block |
| Scenario.HeadingCloses | app.py:43 | an upper-case heading closes a block |
| Scenario.ExampleBlockEnd | app.py:40-45 | the example's "PUMP01" block ends at the "PUMP02" heading |
| Scenario.ExampleBlockRows | app.py:47 | that block is the one document row |
| Scenario.ExampleDocument | app.py:48-55 | the document row is a detail row with a text name and "DR" on the first stage |
| Scenario.CollectOne | app.py:52-72 | a one-row block yields its row projected when kept, nothing otherwise |
| Scenario.ExampleBlock | app.py:52-72 | the example block yields its document projected onto the first stage |
| Scenario.ExampleQuery | app.py:28-77 | "PUMP01" with "Design" gives one 10-cell row named "Pump datasheet" with a grey dot |
| Scenario.ExampleUnknownName | app.py:36-37 | an unknown name gives the not-found message and ten blanks |
| Scenario.ExampleNoStage | app.py:74-75 | with no stage selected, "PUMP01" gives the no-match message and nine blanks |
| Display.TableWidth | app.py:113-114 | the result table has 9 columns plus one per selected stage |
| Display.MessageRowOverflows | app.py:75 | every message row after a successful load is one cell wider than the table |
| Display.ExamplePump02Offered | app.py:86-97 | the example offers "PUMP02" as a function name |
| Display.ExampleDesignOffered | app.py:102-105 | the example offers "Design" as a stage name |
| Display.ExamplePump02Key | app.py:35 | "PUMP02" is found at row 6 |
| Display.ExamplePump02Answer | app.py:74-75 | the empty "PUMP02" block gives the no-match row |
| Display.ExampleMessageOverflows | app.py:111-117 | choosing the offered "PUMP02" and "Design" gives an answer that does not fit the table |
| Display.MessageAnswerIsSentinel | app.py:36-79 | an answer whose first row is message-wide is a single message row |
| Display.MessageRowEndsInPad | app.py:75 | a message-wide answer is one row whose extra last cell is a blank |
| Display.Fit | app.py:114-117 | cutting keeps every row a prefix of itself and brings rows of the table's width or one wider to the table's width |
| Display.FitDropsTrailingPad | app.py:114-117 | rows of the table's width, or one wider ending in a blank, fit once cut, and each loses only that blank |
| Display.FittedAnswerFitsTable | app.py:113-117 | when every selected stage resolves, the corrected answer fits the table, and it differs from the tool's only by the blank dropped from a message row |

## Findings

| source | as written | input that shows it | evidently intended | confidence | as-written member | corrected member |
|---|---|---|---|---|---|---|
| app.py:75 | the not-found, no-match and error rows (lines 37, 75, 79) start with four cells, so they have 10 plus one per selected stage; the table built at lines 114-117 has 9 plus one per selected stage columns, and `pd.DataFrame` rejects a row with more cells than columns | the example sheet: choose the offered function "PUMP02" (its block is empty) and the offered stage "Design" | message rows as wide as the table: the message and blanks up to the table's width | high, not executed | Display.ExampleMessageOverflows | Display.FittedAnswerFitsTable |

`Display.FittedMatchingDocuments` is the corrected answer: the tool's answer
with one trailing blank dropped from a message row.

## Left out

- Loading the workbook is not modelled. The sheet, or the message of the
  loading exception, is a parameter (`Source`).
- The user interface is not modelled: the title, the select boxes, the
  button, and the guard at app.py:111. The HTML and CSS of the table and of
  the dots (app.py:67, 119-151) are left out too. An indicator is an
  abstract colour or a blank; `Markers.Hex` keeps the colour codes.
- After a load failure the tool offers only "" as a function name
  (app.py:94-97) and no stage names (app.py:105). The guard at app.py:111
  therefore always holds the query back, and this user interface never
  shows the load-failure row of app.py:30. The model states that row for
  the query on its own (`QueryProperties.LoadFailureAnswer`).
- How Python prints numbers is not modelled: `str(1.0)`, exponents, NaN.
  A numeric cell carries its printed text (`Num.shown`), and its type is
  kept only for the error message.
- Cells holding booleans, dates or other objects are not modelled. Only
  missing, text and numeric cells are.
- Whitespace and case are ASCII only. Python's `isspace` and `isupper` also
  accept non-ASCII characters.
- Sheets narrower than 19 columns are excluded by `WellFormed`. The Excel
  reader drops trailing columns that hold no data and pads every row to the
  same width. A sheet 11 to 18 columns wide answers like the same sheet
  padded with missing cells to 19 columns, which `WellFormed` admits.
  Sheets narrower than 11 columns are not modelled: they have fewer detail
  headers, so their message rows are narrower.
- Sheets with fewer than four rows are excluded by `WellFormed`. With such
  a sheet pandas raises inside the query, and the handler at app.py:79
  raises again, because `column_headers` is unbound.
- Display.FittedAnswerFitsTable: covers only selections whose every stage
  resolves to a column. A numeric stage label is offered (app.py:103) but
  never resolves (app.py:34, `Choices.NumericStageLabelDropped`). Selected
  together with a text label, it gives document rows of 9 cells plus one per
  resolved stage, fewer than the table's 9 plus one per selected stage
  (app.py:114), which `pd.DataFrame` rejects as well. The correction does not
  cover that second width mismatch.
- Exceptions other than `strip` on a numeric document name are not
  modelled, for example a document name that is a boolean.
- Extraction.MatchingDocuments: its own contract only says the answer is
  not empty. The case-by-case properties are the `QueryProperties` lemmas.
- Ordering.SortedSet: compares strings by code point, as Python does. No
  locale collation applies.
