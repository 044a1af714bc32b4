# Splynx ticket/customer reconciliation — a Dafny model

This project models the data-handling core of a desktop tool that scrapes tickets and
customers from the Splynx web portal into an Excel workbook and reconciles them:

- **The merge** (`merge_tickets_customers`). Every row of "Datos de Tickets" is joined
  to a row of "Datos Clientes" through a normalised identifier key (`_id_key`). The
  merge then rebuilds the sheets "Datos Completos", "Datos no Encontrados" and
  "Resumen Merge".
- **The reorder** (`reorder_datos_completos_by_template`). It rebuilds "Datos Completos"
  with the column order of a template. Headers are matched through a tolerant key
  (`_norm_key`) and an alias table. Extra columns can be kept at the end, and named
  columns can be excluded.
- **The table extractor** (`extract_table_to_csv`). It turns the rows of an HTML table
  into rectangular CSV rows.
- **The browser helpers of the scraper**:
  - the `||`-separated selector candidates and the try-in-order loops of
    `_click_any` / `_fill_any` / `_press_any`, with the frame-then-page fallback of
    `_run_step`;
  - `_has_word`, the three activity predicates, `_parse_activity_datetime` and the
    latest-activity scan;
  - `_read_missing_ids`;
  - the checkpointed, resumable date collector `_do_collect_dates_from_excel`;
  - the customer upsert `_upsert_customer_minimal`.

A workbook is a sequence of named sheets. A sheet is a sequence of rows of cells, and a
cell is `Null`, a boolean, an integer or text. `max_row` and `max_column` are at least
1, as openpyxl reports them even for an empty sheet. The browser, the files and the
clock are parameters:

- a fetch function gives the outcome of each attempt at a ticket;
- an outcome per selector stands for one attempt at an element;
- the row the progress file records is an input, and what a finished run leaves in it
  is a result;
- the workbook that would be saved is the result.

The data-shaped code is modelled as functions and lemmas. The source's loops are
methods with loop invariants. Each method is proved equal to the function that
specifies it, and the properties are proved about those functions.

Modules:

| module | file | models |
|---|---|---|
| `Wrappers` | `wrappers.dfy` | `Option` and `Result` |
| `Sheets` | `sheets.dfy` | cells, sheets, workbooks and the openpyxl operations the code uses |
| `Text` | `text.dfy` | `str.strip`, `lower`, accent stripping, whitespace collapsing, `_norm_header` / `_norm_text` |
| `IdKeys` | `id_key.dfy` | `_digits`, `_SCI_RE` and `_id_key` |
| `Merge`, `MergeProperties`, `MergeSummary` | `merge*.dfy` | `merge_tickets_customers` |
| `ReorderKey`, `Reorder`, `ReorderProperties` | `reorder*.dfy` | `_norm_key`, `_sheet_headers`, `_build_col_index`, the reorder |
| `TableExtract`, `TableExtractProperties` | `table_extract*.dfy` | `extract_table_to_csv` |
| `Locators` | `locators.dfy` | selector candidates, `_click_any` and its siblings, `_run_step` |
| `ActivityText`, `ActivityTime`, `ActivityTimeProperties`, `Activity` | `activity*.dfy` | activity predicates, timestamp parsing, latest-activity scan |
| `MissingIds` | `missing_ids.dfy` | `_read_missing_ids` |
| `DateColumns`, `CollectDates`, `CollectDatesProperties` | `date_columns.dfy`, `collect_dates*.dfy` | `_do_collect_dates_from_excel` |
| `CustomerUpsert`, `CustomerUpsertProperties` | `customer_upsert*.dfy` | `_get_or_create_sheet`, `_upsert_customer_minimal` |

Behaviour of the code that the model keeps as written:

- **Collector counters on resume.** `updated`, `skipped` and `failed` start at 0 on
  every run, and a resumed run starts after the checkpoint's row. A resumed run
  therefore counts only the rows it processed itself
  (`CollectDatesProperties.RunCounts`, `CollectDatesProperties.CollectResolvedCounts`).
- **Checkpoints after skipped rows.** A row whose three dates are present `continue`s
  before `_save_progress`, so a skipped row writes no checkpoint
  (`CollectDatesProperties.RowStepSkips`).
- **Progress after a finished run.** After the loop the progress file is overwritten
  with a `done` record that has the counters and no row. The next run therefore starts
  again at the first ticket and looks up every row whose dates are still empty or
  "N/A" (`CollectDatesProperties.FinishedRunRestarts`).
- **When a row is looked up.** A row is skipped only when all three dates are present;
  a row missing one, two or all three dates is looked up (`CollectDates.Complete`).
- **`_read_missing_ids` on non-text cells.** `_read_missing_ids` calls `_norm_text` on the
  raw Reporter type cell. For a truthy non-text cell (a non-zero integer, `True`) that
  raises `AttributeError`. The model returns that error
  (`MissingIds.RowsFailOnlyOnType`, `MissingIds.MissingIdsErrors`).
- **Stale column numbers in the collector.** After `ws.insert_cols`, only the
  closed-date column number is moved; the escalation and ID column numbers are not.
  The collector is modelled with those stale numbers (`DateColumns.ResolveAsWritten`);
  see "## Findings".
- **Header row of a new customer sheet.** On an empty "Datos Clientes" sheet the
  headers are appended to row 2, and `_ensure_col` then writes them again into
  columns 4 to 6 of row 1. The upsert is modelled that way
  (`CustomerUpsert.BootstrapAsWritten`); see "## Findings".

## Model

| member | source | states |
|---|---|---|
| `Sheets.NatToString` | src/excel_merge.py:45-46 | `str(n)` of a natural: non-empty decimal digits, a leading `0` only for zero |
| `Sheets.StrOr` | src/excel_merge.py:211 | `str(v or "")`: empty for a falsy cell, the text itself for a text cell |
| `Sheets.SetCell` | src/splynx_playwright.py:2160 | writing a cell sets exactly that cell, grows the row count to at least `r`, and leaves every other cell unchanged |
| `Sheets.SetCellWidens` | src/splynx_playwright.py:2159-2160 | a write never narrows the sheet, and a written non-empty value lies within `max_column` |
| `Sheets.SetCellNarrows` | src/splynx_playwright.py:2159-2160 | a write widens the sheet to at most the written column |
| `Sheets.InsertCol` | src/splynx_playwright.py:691 | `insert_cols(idx)`: columns before `idx` unchanged, column `idx` empty, every later cell one column to the right |
| `Sheets.HeaderTexts` | src/splynx_playwright.py:1415 | one stripped `str(v or "")` per column `1 .. max_column` of row 1 |
| `Sheets.IndexOf` | src/excel_merge.py:134-137 | the first sheet with the name, or none when no sheet has it |
| `Sheets.RemoveSheet` | src/excel_merge.py:217-218 | the workbook without the first sheet of that name, unchanged when there is none |
| `Sheets.RemoveKeepsOthers` | src/excel_merge.py:216-228 | removing one name leaves the sheet found under every other name, and whether it is found |
| `Sheets.RemoveUnique` | src/excel_merge.py:216-228 | with unique names, removal keeps them unique and the removed name is gone |
| `Sheets.FirstIndexOfFirstWins` | src/excel_reorder.py:58-65 | a key is indexed iff it is non-empty and some header has it, at the column of its first occurrence |
| `Sheets.FirstOccurrenceIndex` | src/splynx_playwright.py:1416-1420 | the `norm_to_col` loop builds exactly the first-occurrence index |
| `Text.Lower` | src/excel_merge.py:14 | lower-casing keeps whitespace and digits and leaves no ASCII capital |
| `Text.Strip` | src/excel_merge.py:14 | `strip()` gives a text neither starting nor ending with whitespace, no longer than the input |
| `Text.StripEmptyIffBlank` | src/excel_merge.py:14 | stripping gives "" exactly for all-whitespace text |
| `Text.Collapse` | src/excel_merge.py:16 | `re.sub(r"\s+", " ", s)` is empty iff the input is, and starts with a space iff the input starts with whitespace |
| `Text.NormTextShape` | src/excel_merge.py:13-17 | a normalised header is collapsed, folded (no capital, no accent) and has no space at either end |
| `Text.NormText` | src/excel_merge.py:13-17 | `_norm_header` / `_norm_text`; stated by `Text.NormTextShape`, `Text.NormTextIdempotent`, `Text.NormTextFoldInsensitive` and `Text.NormTextIgnoresPadding` |
| `Text.NormTextIdempotent` | src/splynx_playwright.py:1341-1348 | normalising twice equals normalising once |
| `Text.NormTextFoldInsensitive` | src/excel_merge.py:13-17 | texts equal up to case and accents normalise alike |
| `Text.NormTextIgnoresPadding` | src/excel_merge.py:13-17 | surrounding whitespace does not change the normal form |
| `IdKeys.DigitRuns` | src/excel_merge.py:21 | `re.findall(r"\d+")`: each run non-empty and all digits |
| `IdKeys.LongestIndex` | src/excel_merge.py:25 | `max(matches, key=len)`: a longest run, and the first of the longest |
| `IdKeys.Digits` | src/excel_merge.py:20-25 | `_digits` yields only digits |
| `IdKeys.StripZeros` | src/excel_merge.py:68 | `lstrip("0")` removes exactly the leading zeros and keeps a suffix |
| `IdKeys.Canon` | src/excel_merge.py:68-69 | `d2 if d2 else "0"` is canonical: no leading zero unless it is "0" |
| `IdKeys.ParseSci` | src/excel_merge.py:28 | a match of `_SCI_RE` yields a well-formed literal |
| `IdKeys.IntPart` | src/excel_merge.py:60-61 | the integer part of a scientific literal is a digit string |
| `IdKeys.IntPartTruncates` | src/excel_merge.py:60-61 | `int(Decimal(s))` truncates: it scales the digits up by the exponent, or lies within one unit below the scaled value |
| `IdKeys.CanonicalIsNatToString` | src/excel_merge.py:68-69 | a canonical key is exactly `str` of the number it denotes |
| `IdKeys.CanonSameIffSameValue` | src/excel_merge.py:68-69 | two digit strings get the same key iff they denote the same number |
| `IdKeys.IdKey` | src/excel_merge.py:31-69 | `_id_key`: no key for an empty or boolean cell; every other non-empty key is canonical, except that of a negative int |
| `IdKeys.IdKeyEmpty` | src/excel_merge.py:39-56 | `None`, booleans and blank text have the empty key |
| `IdKeys.IdKeyOfText` | src/excel_merge.py:54-69 | for non-scientific text: empty key iff no digit, else the number of the first longest digit run |
| `IdKeys.IdKeyOfScientific` | src/excel_merge.py:58-69 | a scientific literal keys to its truncated magnitude, without sign; past 4300 digits `str` raises, and the key is the text's longest digit run |
| `IdKeys.ScientificKey` | src/excel_merge.py:58-69 | up to 4300 digits, the key is `str` of the truncated magnitude |
| `IdKeys.OversizedScientificKey` | src/excel_merge.py:58-69 | over 4300 digits, the `ValueError` is caught and the key is that of the text itself |
| `IdKeys.SameNumberSameKey` | src/excel_merge.py:31-69 | an int cell and a text holding the same number (prefix, padding, leading zeros) get the same key |
| `IdKeys.IdKeyIdempotent` | src/splynx_playwright.py:1352-1381 | re-keying a key changes nothing, for every cell but a negative int |
| `IdKeys.NegativeIntKeepsSign` | src/excel_merge.py:45-46 | the int -5 keys to "-5" while the text "-5" keys to "5" |
| `IdKeys.ScientificExample` | src/excel_merge.py:58-63 | "1.35921E+05" and 135921 get the same key |
| `IdKeys.OversizedExample` | src/excel_merge.py:58-69 | "1E+5000" keys to "5000", not to the 5001-digit number |
| `Merge.LastPos` | src/excel_merge.py:79-85 | the last position of a key, and no later one |
| `Merge.ColumnsOfLastWins` | src/excel_merge.py:77-86 | the header dictionary holds each non-empty key at the column of its LAST occurrence |
| `Merge.ColumnsOf` | src/excel_merge.py:77-86 | the header dictionary of `_get_sheet_columns`; stated by `Merge.ColumnsOfLastWins` |
| `Merge.GetSheetColumns` | src/excel_merge.py:77-86 | the header loop builds exactly that dictionary |
| `Merge.Require` | src/excel_merge.py:89-93 | the column of the normalised name, or an error naming it exactly when it is absent |
| `Merge.Optional` | src/excel_merge.py:96-98 | the column of the normalised name, present exactly when the key is |
| `Merge.CustomerLookupLastWins` | src/excel_merge.py:202-214 | a key is known iff some customer row has it (never the empty key); its data and row number come from the last such row |
| `Merge.SafeInt` | src/excel_merge.py:247-251 | `int(k)` on a key, `None` for a key of more than 4300 digits; stated by `Merge.SafeIntOfKey` and `Merge.SafeIntOfNegativeKey` |
| `Merge.SafeIntOfKey` | src/excel_merge.py:247-251 | a canonical key gives a number iff it has at most 4300 digits, and `str` of that number is the key |
| `Merge.SafeIntOfNegativeKey` | src/excel_merge.py:247-251 | the same for the key of a negative int cell |
| `Merge.CustomersOf` | src/excel_merge.py:202-214 | `customer_map` and its row numbers; stated by `Merge.CustomerLookupLastWins` |
| `Merge.KeyInts` | src/excel_merge.py:247-253 | `c_ints` holds exactly the numbers `_safe_int` gives for some key, and no more entries than keys |
| `Merge.BuildCustomers` | src/excel_merge.py:204-214 | the customer loop builds exactly that lookup |
| `Merge.SeqMin` | src/excel_merge.py:256 | `min(c_ints)` is a member and below every member |
| `Merge.SeqMax` | src/excel_merge.py:257 | `max(c_ints)` is a member and above every member |
| `Merge.ChooseJoinKey` | src/excel_merge.py:294-305 | no key iff both candidates are empty; the Reporter ID is used only for a customer reporter or when ID Cliente is empty; ID Cliente otherwise |
| `Merge.JoinRow` | src/excel_merge.py:271-345 | one loop iteration equals the specification step on the loop state |
| `Merge.JoinTickets` | src/excel_merge.py:271-345 | the ticket loop equals the fold of the step over the ticket rows |
| `Merge.JoinOf` | src/excel_merge.py:271-345 | the join over the ticket rows; stated by `MergeProperties.JoinRowsInOrder`, `MergeProperties.JoinCountersBalance` and `MergeProperties.NotFoundCountsExact` |
| `Merge.JoinOrderInCounts` | src/excel_merge.py:239 | the insertion order of `not_found_counts` and its keys stay the same set |
| `Merge.AppendItemRows` | src/excel_merge.py:367-368 | the summary keeps its rows and gains one item row per listed key, in order |
| `Merge.SummaryHead` | src/excel_merge.py:242-257 | five summary rows, seven when `_safe_int` accepts some customer key |
| `Merge.SummaryTail` | src/excel_merge.py:348-361 | eight rows, eleven when some reporter type was seen |
| `Merge.Replace` | src/excel_merge.py:216-228 | the recreated sheet is the last sheet of the workbook |
| `Merge.ResolveTicketColumns` | src/excel_merge.py:146-156 | resolving the ticket columns from the header row equals the specification |
| `Merge.ResolveCustomerColumns` | src/excel_merge.py:196-199 | resolving the customer columns equals the specification |
| `Merge.BuildSummary` | src/excel_merge.py:242-368 | the summary sheet equals the specification |
| `Merge.Merge` | src/excel_merge.py:101-371 | the whole merge equals the specification |
| `Merge.MergeSpec` | src/excel_merge.py:101-371 | `merge_tickets_customers` as a function; its contract is stated by `Merge.Merge` and the `MergeProperties` lemmas |
| `MergeProperties.JoinCountersBalance` | src/excel_merge.py:271-345 | `joined + not_found == tickets_total`; each row in exactly one output sheet; each key from exactly one source or blank |
| `MergeProperties.JoinRowShapes` | src/excel_merge.py:334-345 | when every ticket row has n cells, every joined row has n + 3 and every not-found row n (contents: `JoinRowsInOrder`) |
| `MergeProperties.JoinRowsInOrder` | src/excel_merge.py:271-345 | the output rows are, in sheet order, the matched tickets' values followed by their customer's three; the not-found rows the unmatched tickets' values |
| `MergeProperties.NotFoundCountsExact` | src/excel_merge.py:306-332 | `not_found_counts[k]` is the number of unmatched rows keyed `k`, present iff positive |
| `MergeProperties.NotFoundCountsSum` | src/excel_merge.py:306-332 | the counted keys are listed once each and their counts add up to `not_found` |
| `MergeProperties.ItemsAreCountedKeys` | src/excel_merge.py:364 | the items are exactly the non-empty counted keys with their counts |
| `MergeProperties.RowRefAlwaysBlank` | src/excel_merge.py:368 | the "Fila cliente (si existe)" cell of every listed key is blank |
| `MergeProperties.TicketColumnsFound` | src/excel_merge.py:146-156 | the ticket columns resolve iff `ID` and one of `Reporter ID` / `ID Cliente` are headers |
| `MergeProperties.CustomerColumnsFound` | src/excel_merge.py:196-199 | the customer columns resolve iff `ID`, `Socio` and `Residencia/Urbanización` are headers |
| `MergeProperties.MergeAccepts` | src/excel_merge.py:129-199 | the merge succeeds exactly when the file, both sheets and the required columns exist |
| `MergeProperties.MergeErrorOrder` | src/excel_merge.py:129-199 | otherwise it fails with the first check that fails, in source order: file, sheets, ticket `ID`, join column, then customer `ID`, `Socio`, `Residencia/Urbanización` |
| `MergeProperties.CustomerColumnErrors` | src/excel_merge.py:196-199 | the customer columns fail on `ID`, then `Socio`, then `Residencia/Urbanización`, each naming the missing column |
| `MergeProperties.MergeCounts` | src/excel_merge.py:271-371 | every data row is processed, and the totals returned are joined plus not found |
| `MergeProperties.ReplaceKeepsOthers` | src/excel_merge.py:216-228 | recreating one sheet leaves the sheet under every other name unchanged |
| `MergeProperties.ReplaceFinds` | src/excel_merge.py:216-228 | with unique names the recreated sheet is found under its name and names stay unique |
| `MergeProperties.MergeKeepsOtherSheets` | src/excel_merge.py:216-228 | every sheet other than the three outputs comes through unchanged |
| `MergeProperties.ReplaceThree` | src/excel_merge.py:216-228 | three recreations under distinct names are each found under their name |
| `MergeProperties.MergeWritesSheets` | src/excel_merge.py:230-345 | the output sheet holds the 30-column header and one 30-cell row per join; the not-found sheet the 27-column header and one row per unmatched ticket |
| `MergeSummary.InsertDesc` | src/excel_merge.py:365 | insertion before the first element whose count does not exceed the new one |
| `MergeSummary.SortDesc` | src/excel_merge.py:365 | the stable descending sort by count |
| `MergeSummary.SortDescSorted` | src/excel_merge.py:365 | the sorted items are ordered by count, highest first |
| `MergeSummary.SortDescStable` | src/excel_merge.py:365 | items with equal counts keep their relative order, and none is lost or added |
| `MergeSummary.TopKeepsHighest` | src/excel_merge.py:365-367 | the listed items are ordered, come from the items, are all of them when at most 200, and nothing left out counts more |
| `MergeSummary.Top` | src/excel_merge.py:365-367 | at most 200 items; the rest stated by `MergeSummary.TopKeepsHighest` |
| `ReorderKey.NormKeyWords` | src/excel_reorder.py:20-40 | the key is its words joined by single spaces, each word `[a-z0-9]+` and not a stop word |
| `ReorderKey.NormKey` | src/excel_reorder.py:11-40 | `_norm_key`; stated by `ReorderKey.NormKeyWords`, `ReorderKey.NormKeyShape` and `ReorderKey.NormKeyIdempotent` |
| `ReorderKey.NormKeyBlank` | src/excel_reorder.py:20-22 | a blank header has the empty key |
| `ReorderKey.JoinWordsShape` | src/excel_reorder.py:40 | joined key words use `[a-z0-9]` and spaces only, and start and end with a letter or digit |
| `ReorderKey.NormKeyShape` | src/excel_reorder.py:11-40 | a key is lower-case alphanumerics in words separated by single spaces, empty iff there is no word |
| `ReorderKey.SplitJoinWords` | src/excel_reorder.py:25-26 | splitting joined key words gives them back |
| `ReorderKey.NormKeyIdempotent` | src/excel_reorder.py:11-40 | a key is its own key |
| `Reorder.TrimTrailingEmptyShape` | src/excel_reorder.py:52-54 | trimming keeps a prefix, drops only empty headers, and leaves no empty header last |
| `Reorder.SheetHeaders` | src/excel_reorder.py:43-55 | the header loop and the trimming equal the specification |
| `Reorder.BuildColIndex` | src/excel_reorder.py:58-65 | `_build_col_index` equals the first-occurrence index under `_norm_key` |
| `Reorder.CoveredIsTemplateOrAlias` | src/excel_reorder.py:137-146 | a key is covered iff it is a non-empty template key or what one aliases to |
| `Reorder.CoveredKeys` | src/excel_reorder.py:142-146 | the covering loop builds exactly that set |
| `Reorder.CollectExtras` | src/excel_reorder.py:148-162 | the extras loop equals the specification |
| `Reorder.ExtrasOf` | src/excel_reorder.py:148-162 | never more extras than source headers; which ones, by `ReorderProperties.ExtrasQualify`, `ExtrasDistinct`, `ExtrasComplete` and `ExtrasFirstOfKey` |
| `Reorder.MapColumns` | src/excel_reorder.py:166-172 | the column map equals the specification |
| `Reorder.CopyRow` | src/excel_reorder.py:183-189 | one copied row equals the specification |
| `Reorder.CopyRows` | src/excel_reorder.py:181-190 | `rows_copied == max_row - 1`, and the rows equal the specification |
| `Reorder.NotExcludedNothing` | src/excel_reorder.py:117-118 | with nothing excluded every template header is kept |
| `Reorder.Columns` | src/excel_reorder.py:109-172 | the output headers and the column map equal the specification |
| `Reorder.OutHeaders` | src/excel_reorder.py:164 | the template headers then the extras; stated by `ReorderProperties.ExtraHeadersSpec` and `ReorderProperties.OutHeadersNotExcluded` |
| `Reorder.NewSheet` | src/excel_reorder.py:174-190 | the header row then the copied rows; stated by `ReorderProperties.NewSheetShape` |
| `Reorder.Reorder` | src/excel_reorder.py:87-207 | the whole reorder equals the specification |
| `Reorder.ReorderSpec` | src/excel_reorder.py:87-207 | the reorder as a function; its contract is stated by `Reorder.Reorder` and the `ReorderProperties` lemmas |
| `Reorder.SwapIn` | src/excel_reorder.py:192-204 | the new sheet takes the original's place and name; stated by `ReorderProperties.SwapInPlace` and `ReorderProperties.SwapInUnique` |
| `Reorder.TemplateHeaders` | src/excel_reorder.py:109-118 | the kept template headers; stated by `ReorderProperties.TemplateHeadersMembers` |
| `ReorderProperties.SheetHeadersShape` | src/excel_reorder.py:43-55 | the headers are the stripped row-1 values up to the last non-empty one, never longer than `max_column` |
| `ReorderProperties.NonEmptyNone` | src/excel_reorder.py:109-110 | the filtered template headers are empty iff every header is empty |
| `ReorderProperties.NoTemplateHeadersIff` | src/excel_reorder.py:109-111 | the `ValueError` fires iff row 1 of the template has no non-empty header |
| `ReorderProperties.TemplateHeadersMembers` | src/excel_reorder.py:109-118 | a template header is kept iff it is non-empty and its key is not excluded |
| `ReorderProperties.ExtrasQualify` | src/excel_reorder.py:148-162 | every extra is a non-empty source header that is neither covered nor excluded |
| `ReorderProperties.ExtrasDistinct` | src/excel_reorder.py:159-161 | no two extras share a key |
| `ReorderProperties.ExtrasComplete` | src/excel_reorder.py:148-162 | every qualifying source header has its key among the extras |
| `ReorderProperties.ExtrasFirstOfKey` | src/excel_reorder.py:148-162 | of the source headers sharing a key, the extra is the first |
| `ReorderProperties.OutHeadersNotExcluded` | src/excel_reorder.py:113-164 | no output column is empty-named or has an excluded key |
| `ReorderProperties.ExtrasNotCovered` | src/excel_reorder.py:137-162 | an extra never repeats a template key or its alias target |
| `ReorderProperties.ExtraHeadersSpec` | src/excel_reorder.py:148-164 | the kept extras are exactly the qualifying source headers, one per key, first wins |
| `ReorderProperties.ExtraHeadersNotCovered` | src/excel_reorder.py:137-164 | no extra of the reordered sheet repeats a template column |
| `ReorderProperties.SourceColFirstMatch` | src/excel_reorder.py:166-172 | an output column reads the first source column with its (aliased) key, and none iff there is none |
| `ReorderProperties.BodyColumns` | src/excel_reorder.py:181-190 | a column without source is `""` in every row; one with a source copies it row by row |
| `ReorderProperties.SwapInPlace` | src/excel_reorder.py:192-204 | the reordered sheet replaces the original at its old position, after any old "(Ordenado)" sheet is removed |
| `ReorderProperties.SwapInUnique` | src/excel_reorder.py:174-204 | with unique names the swap keeps them unique and leaves no "(Ordenado)" copy |
| `ReorderProperties.ReorderErrors` | src/excel_reorder.py:90-111 | each error is raised exactly when its check is the first to fail, in source order |
| `ReorderProperties.ReorderNoTemplateHeaders` | src/excel_reorder.py:109-118 | the empty-template error depends only on row 1 of the template, whatever is excluded |
| `ReorderProperties.NewSheetShape` | src/excel_reorder.py:174-190 | the new sheet is the header row and one row per source row, each `len(out_headers)` cells long |
| `ReorderProperties.ReorderResult` | src/excel_reorder.py:174-207 | a call that passes the checks returns `(max_row - 1, len(out_headers))` and the swapped workbook |
| `TableExtract.CellText` | src/table_extract.py:30-31 | a cell's text is words separated by single spaces |
| `TableExtract.NormRow` | src/table_extract.py:28-32 | every cell of a row normalised, same length |
| `TableExtract.Kept` | src/table_extract.py:34-35 | the normalised rows with at least one cell, in table order |
| `TableExtract.NonEmptyRows` | src/table_extract.py:34-35 | the positions of the rows with cells, ascending |
| `TableExtract.Width` | src/table_extract.py:33 | `max_cols` bounds every row and is attained, 0 without cells |
| `TableExtract.Pad` | src/table_extract.py:39-40 | a short row is extended with `""` to the width; a long one is unchanged |
| `TableExtract.Padded` | src/table_extract.py:38-40 | every row padded, same number of rows |
| `TableExtract.ReadCells` | src/table_extract.py:29-32 | the cell loop equals normalising the row |
| `TableExtract.ReadRows` | src/table_extract.py:24-35 | the row loop keeps exactly the rows with cells and computes `max_cols` |
| `TableExtract.PadRows` | src/table_extract.py:38-40 | the in-place padding loop turns the array into the padded rows |
| `TableExtract.ExtractTable` | src/table_extract.py:14-44 | the rows written to the CSV equal the specification |
| `TableExtractProperties.KeptAreNonEmptyRows` | src/table_extract.py:24-35 | the kept rows are the rows that had cells, normalised, in order |
| `TableExtractProperties.RectangularRows` | src/table_extract.py:14-44 | one output row per table row with cells, each exactly `max_cols` wide, its cells then `""` |
| `TableExtractProperties.KeptAll` | src/table_extract.py:34-35 | a table whose rows all have cells keeps every row |
| `TableExtractProperties.CellTextIdempotent` | src/table_extract.py:30-31 | normalising a normalised cell changes nothing |
| `TableExtractProperties.RectangularRowsNormal` | src/table_extract.py:14-44 | every extracted row has cells, and they are normalised |
| `TableExtractProperties.RectangularIdempotent` | src/table_extract.py:14-44 | extracting the extracted rows again gives the same rows |
| `Locators.FindSep` | src/splynx_playwright.py:337 | the first `\|\|` at or after the start, and none before it |
| `Locators.Split` | src/splynx_playwright.py:337 | `split("\|\|")` gives at least one piece; the pieces and separators rebuild the text (`Locators.JoinSplit`) |
| `Locators.JoinSplit` | src/splynx_playwright.py:337 | joining the pieces of `split("\|\|")` gives back the selector |
| `Locators.SplitJoin` | src/splynx_playwright.py:337 | pieces without `\|` survive joining and splitting unchanged |
| `Locators.Clean` | src/splynx_playwright.py:337 | every candidate is stripped and non-empty |
| `Locators.Candidates` | src/splynx_playwright.py:336-339 | every candidate stripped and non-empty, at most one per piece |
| `Locators.CandidatesOfJoin` | src/splynx_playwright.py:336-339 | the candidates of `"a \|\| b \|\| c"` are `a`, `b`, `c` |
| `Locators.BlankPiecesNoCandidates` | src/splynx_playwright.py:337-339 | a selector of whitespace and separators has no candidates, so the step does nothing |
| `Locators.FirstDone` | src/splynx_playwright.py:185-199 | the first selector whose attempt succeeds; all before it failed |
| `Locators.TryInOrder` | src/splynx_playwright.py:183-204 | the loop stops after the first success, else tries all and raises the last error, or nothing with no selectors |
| `Locators.TryAny` | src/splynx_playwright.py:183-204 | the outcome of the try-in-order loop; stated by `Locators.TryAnyRaisesIff` |
| `Locators.TryAnyRaisesIff` | src/splynx_playwright.py:203-204 | an error iff there were candidates and all failed, and it is the last one's |
| `Locators.ActionOf` | src/splynx_playwright.py:352 | `fill`, `press`, `wait_enabled`, `wait_nonempty` exactly for those lower-cased names; a click otherwise |
| `Locators.StepAction` | src/splynx_playwright.py:336-352 | a string step clicks; a dictionary step does its `action` |
| `Locators.StepCandidates` | src/splynx_playwright.py:336-360 | the candidates of a step are non-empty; none exactly when the step is neither a string nor a dictionary, or its `selector` is missing, empty or not iterable |
| `Locators.WaitTimeout` | src/splynx_playwright.py:384-397 | `int(step.get("timeout_ms", …))`: 120 000 ms for `wait_enabled` and 300 000 for `wait_nonempty` by default, the given number, else ValueError for unreadable text and TypeError otherwise |
| `Locators.StepError` | src/splynx_playwright.py:350-397 | an error before any attempt iff the selector is not iterable, or a wait with candidates has a timeout `int` rejects; it is TypeError or ValueError |
| `Locators.RunStep` | src/splynx_playwright.py:331-414 | `_run_step` on per-selector outcomes, after the errors raised outside the `try`; stated by `Locators.RunStepFallback` |
| `Locators.RunStepFallback` | src/splynx_playwright.py:331-414 | for every step and action: an error raised before any attempt is the outcome; otherwise it fails iff it has candidates, every one failed in the frame and, unless the frame is the page, every one failed on the page, and the error is the last candidate's |
| `ActivityText.SearchWord` | src/splynx_playwright.py:1015-1020 | the leftmost whole-word occurrence at or after the start, or none |
| `ActivityText.HasWord` | src/splynx_playwright.py:1015-1020 | `_has_word`; stated by `ActivityText.HasWordIff` |
| `ActivityText.HasWordIff` | src/splynx_playwright.py:1015-1020 | `_has_word` holds iff the stripped, lower-cased word occurs between word boundaries |
| `ActivityText.HasWordContains` | src/splynx_playwright.py:1015-1020 | a whole-word match is a substring match |
| `ActivityText.StatusChangesMention` | src/splynx_playwright.py:1203-1212 | every status-change phrase contains "status" or "estado" |
| `ActivityText.ResueltoIff` | src/splynx_playwright.py:1194-1215 | the "Resuelto" predicate holds iff "resuelto" is a whole word and the text mentions "status" or "estado" |
| `ActivityText.EscalationAccentedNeverMatches` | src/splynx_playwright.py:1191 | the accented "operación y mantenimiento" never occurs in a `_norm_text` result |
| `ActivityText.EscalationIff` | src/splynx_playwright.py:1186-1192 | on normalised text the escalation test is a group change plus the unaccented phrase |
| `ActivityText.IsEscalationOM` | src/splynx_playwright.py:1190-1191 | the escalation predicate; stated by `ActivityText.EscalationIff` |
| `ActivityText.IsResuelto` | src/splynx_playwright.py:1195-1213 | the "Resuelto" predicate; stated by `ActivityText.ResueltoIff` |
| `ActivityText.IsClosed` | src/splynx_playwright.py:1218-1240 | the closed predicate; stated by `ActivityText.ClosedMentionsWord` |
| `ActivityText.ClosedMentionsWord` | src/splynx_playwright.py:1218-1240 | a text the closed predicate accepts contains "closed" or "cerrado" |
| `ActivityTime.EarlierIrreflexive` | src/splynx_playwright.py:1308 | no date-time is later than itself |
| `ActivityTime.EarlierTransitive` | src/splynx_playwright.py:1308 | the order of date-times is transitive |
| `ActivityTime.EarlierTotal` | src/splynx_playwright.py:1308 | two different date-times are ordered one way or the other |
| `ActivityTime.SpaceRun` | src/splynx_playwright.py:1319 | a greedy `\s*` takes all the whitespace at that point and stops at the first non-space |
| `ActivityTime.MatchCore` | src/splynx_playwright.py:1319-1321 | a match at a position ends after it and within the text |
| `ActivityTime.ClockHour` | src/splynx_playwright.py:1327-1333 | the hour a matching format yields is between 0 and 23 |
| `ActivityTime.ParseCandidate` | src/splynx_playwright.py:1327-1337 | a parsed candidate is a valid `datetime` carrying the candidate's date |
| `ActivityTime.LastParsedSpec` | src/splynx_playwright.py:1323-1339 | a result iff some candidate parses, and it is one candidate's parse |
| `ActivityTime.FindAll` | src/splynx_playwright.py:1319-1321 | `re.findall` from a position; stated by `ActivityTimeProperties.TwoStampsFound` and `ActivityTimeProperties.LastStampFound` |
| `ActivityTime.Candidates` | src/splynx_playwright.py:1319-1321 | the parenthesised stamps, else the bare ones; stated by `ActivityTimeProperties.ParseStampInParens` and `ActivityTimeProperties.ParseTakesLastStamp` |
| `ActivityTime.ParseActivityDateTime` | src/splynx_playwright.py:1314-1339 | a parsed date-time is valid |
| `ActivityTime.Render` | src/splynx_playwright.py:1310 | `strftime("%d/%m/%Y %H:%M")` is 16 characters |
| `ActivityTimeProperties.ParseStamp` | src/splynx_playwright.py:1314-1339 | a `dd/mm/yyyy HH:MM:SS` stamp parses back to its date-time |
| `ActivityTimeProperties.ParseStampInParens` | src/splynx_playwright.py:1319 | in parentheses, as in a heading, the stamp parses back the same way |
| `ActivityTimeProperties.ParseTakesLastStamp` | src/splynx_playwright.py:1323 | of two stamps the later in the text wins, whatever their order in time |
| `ActivityTimeProperties.Stamp12Candidates` | src/splynx_playwright.py:1321 | a 12-hour stamp yields one candidate with the clock-face hour and its AM/PM marker |
| `ActivityTimeProperties.ParseStamp12` | src/splynx_playwright.py:1328 | a 12-hour stamp parses back to the 24-hour date-time (12 AM midnight, 12 PM noon) |
| `ActivityTimeProperties.RenderNotReparsed` | src/splynx_playwright.py:1310 | the `dd/mm/yyyy HH:MM` value written to the workbook does not parse |
| `Activity.PickBlocks` | src/splynx_playwright.py:1261-1266 | the blocks of the scope, or of the page when the scope has none or counting them raised; used by `Activity.ExtractLastActivityOn` |
| `Activity.HeadingStamp` | src/splynx_playwright.py:1288-1298 | empty iff every heading is blank, else the first non-blank heading, stripped |
| `Activity.ReadHeading` | src/splynx_playwright.py:1289-1296 | the heading loop equals that |
| `Activity.BlockDate` | src/splynx_playwright.py:1277-1306 | a block is dated only when readable and matching, with a valid date |
| `Activity.DateOfBlock` | src/splynx_playwright.py:1277-1306 | the block body equals that |
| `Activity.ExtractLastActivity` | src/splynx_playwright.py:1244-1312 | the scan equals the specification |
| `Activity.ExtractLastActivityOn` | src/splynx_playwright.py:1244-1312 | the scan over the scope's blocks, else the page's, equals the latest-activity specification on the picked blocks |
| `Activity.LastActivity` | src/splynx_playwright.py:1244-1312 | the scan as a function; stated by `Activity.LastActivityIsLatest` |
| `Activity.LastEscalationOM` | src/splynx_playwright.py:1186-1192 | the latest activity matching the escalation predicate, as `Activity.LastActivityIsLatest` states for any predicate |
| `Activity.LastResuelto` | src/splynx_playwright.py:1194-1215 | the latest activity matching the "Resuelto" predicate, as `Activity.LastActivityIsLatest` states for any predicate |
| `Activity.LastClosed` | src/splynx_playwright.py:1217-1242 | the latest activity matching the closed predicate, as `Activity.LastActivityIsLatest` states for any predicate |
| `Activity.BestIsLatest` | src/splynx_playwright.py:1308-1310 | the scan keeps a date that is among the dates and not earlier than any; none iff there are no dates |
| `Activity.LastActivityIsLatest` | src/splynx_playwright.py:1244-1312 | "" iff none of the first 400 blocks has a date, else the rendering of the latest |
| `Activity.BlocksPastLimitIgnored` | src/splynx_playwright.py:1276 | blocks after the 400th never change the result |
| `Activity.HeadingDatePreferred` | src/splynx_playwright.py:1300-1304 | a date in the heading wins over one in the block's text |
| `Activity.ScopeBlocksDecide` | src/splynx_playwright.py:1261-1312 | with blocks in the scope the page plays no part: "" iff none of the scope's first 400 qualifies with a date, else the latest one |
| `Activity.PageBlocksDecide` | src/splynx_playwright.py:1261-1312 | with no blocks in the scope, or counting them raised, the page's first 400 blocks decide the same way |
| `MissingIds.NormCell` | src/splynx_playwright.py:1437-1441 | `_norm_text` on a raw cell raises iff the cell is truthy and not text |
| `MissingIds.RowKey` | src/splynx_playwright.py:1436-1450 | a row fails iff its reporter-type cell cannot be normalised, with that row's error |
| `MissingIds.Keys` | src/splynx_playwright.py:1435 | when no row fails, one key per row `2 .. max_row` |
| `MissingIds.Dedup` | src/splynx_playwright.py:1452-1454 | never more identifiers than rows |
| `MissingIds.ReadMissingIds` | src/splynx_playwright.py:1409-1456 | the whole function equals the specification |
| `MissingIds.MissingIdsOf` | src/splynx_playwright.py:1409-1456 | `_read_missing_ids` as a function; stated by `MissingIds.MissingIdsErrors` and `MissingIds.CollectedSpec` |
| `MissingIds.CollectIds` | src/splynx_playwright.py:1432-1456 | the loop with `ids` and `seen` equals the specification |
| `MissingIds.DedupMembers` | src/splynx_playwright.py:1452-1454 | an identifier is returned iff it is non-empty and some row has it |
| `MissingIds.DedupDistinct` | src/splynx_playwright.py:1452-1454 | no identifier is returned twice |
| `MissingIds.DedupFirstSeenOrder` | src/splynx_playwright.py:1452-1454 | identifiers come out in the order of their first occurrence |
| `MissingIds.KeysErrIff` | src/splynx_playwright.py:1435-1442 | reading fails iff some row raises, with the first such row's error |
| `MissingIds.RowErrors` | src/splynx_playwright.py:1437-1441 | the rows fail iff some reporter-type cell is truthy and not text |
| `MissingIds.NoTypeColumnNoRowError` | src/splynx_playwright.py:1437-1441 | without a Reporter type column no row fails |
| `MissingIds.CollectedSpec` | src/splynx_playwright.py:1432-1456 | the result holds each non-empty key once, in first-seen order |
| `MissingIds.RowsFailOnlyOnType` | src/splynx_playwright.py:1435-1442 | reading rows fails only with a reporter-type error |
| `MissingIds.FromSheetErrors` | src/splynx_playwright.py:1425-1430 | the identifier-column error iff neither `Reporter ID` nor `ID Cliente` is a header |
| `MissingIds.MissingIdsErrors` | src/splynx_playwright.py:1411-1430 | the missing-sheet error iff "Datos no Encontrados" is absent, then the column check |
| `MissingIds.ColFirstHeader` | src/splynx_playwright.py:1422-1423 | `_col(name)` is the first column whose normalised header is the normalised name |
| `DateColumns.FindHeader` | src/splynx_playwright.py:665-670 | the first column whose stripped, lower-cased header equals the name's, none iff there is none |
| `DateColumns.AddHeader` | src/splynx_playwright.py:683-684 | the name written past the last column, the rest of row 1 unchanged |
| `DateColumns.Ensure` | src/splynx_playwright.py:682-704 | the found column, or a new one after the last column holding the header |
| `DateColumns.Shift` | src/splynx_playwright.py:691 | a column number after the insertion: unchanged before it, one more from it on |
| `DateColumns.PlaceAsWritten` | src/splynx_playwright.py:682-704 | the columns placed as the code keeps their numbers, valid column numbers |
| `DateColumns.Place` | src/splynx_playwright.py:682-704 | the columns placed with every displaced number moved along, valid column numbers |
| `DateColumns.ResolveAsWritten` | src/splynx_playwright.py:672-704 | the columns as the code computes them (only the closed-date number moves after the insertion), valid column numbers |
| `DateColumns.ResolveColumns` | src/splynx_playwright.py:672-704 | the columns with every displaced number moved along, valid column numbers |
| `DateColumns.ResolveColumnsHeaded` | src/splynx_playwright.py:672-704 | each resolved column carries its own header in the resulting sheet |
| `DateColumns.ResolveColumnsDistinct` | src/splynx_playwright.py:672-704 | with distinguishable headers the four columns are distinct |
| `DateColumns.ResolveFailsIffNoId` | src/splynx_playwright.py:672-675 | resolution fails iff there is no ID column |
| `DateColumns.AsWrittenEscalationOnClosed` | src/splynx_playwright.py:682-695 | as written, on headers ID and closed date with ticket 7, the escalation number is 3, the closed-date column, while its header is in column 4 |
| `DateColumns.CorrectedEscalationMoved` | src/splynx_playwright.py:682-695 | moved along, escalation is column 4 under its own header |
| `DateColumns.SecondExampleFinds` | src/splynx_playwright.py:665-680 | on headers closed date, ID: `_find_header` finds ID in column 2 and the closed date in column 1, and no other date column |
| `DateColumns.AsWrittenIdOnClosed` | src/splynx_playwright.py:682-695 | as written, on that sheet the ID number stays 2, which now heads the closed-date column with an empty cell, while ticket 7 moved to column 3 |
| `DateColumns.CorrectedIdMoved` | src/splynx_playwright.py:682-695 | moved along, the ID is column 3 under its own header, holding ticket 7 |
| `CollectDates.TicketRows` | src/splynx_playwright.py:706-711 | ticket rows are increasing, below the header and within the sheet |
| `CollectDates.Tickets` | src/splynx_playwright.py:706-711 | `ticket_rows` of the ID column; stated by `CollectDatesProperties.TicketRowsExact` |
| `CollectDates.ScanTickets` | src/splynx_playwright.py:706-711 | the loop building `ticket_rows` equals the specification |
| `CollectDates.ReadTickets` | src/splynx_playwright.py:706-711 | the ticket rows read from the ID column |
| `CollectDates.RowPos` | src/splynx_playwright.py:729-732 | the first ticket at that row, none iff there is none |
| `CollectDates.StartIndex` | src/splynx_playwright.py:726-732 | 0 without a checkpoint or when its row is not a ticket row; else one past the first ticket at that row |
| `CollectDates.FindStart` | src/splynx_playwright.py:727-732 | the resume loop equals that |
| `CollectDates.RetryFrom` | src/splynx_playwright.py:766-794 | up to three attempts; each repeated one failed retryably; a failure ends the loop only at the third attempt or when not retryable |
| `CollectDates.FetchWithRetry` | src/splynx_playwright.py:766-794 | the retry loop equals that |
| `CollectDates.Retry` | src/splynx_playwright.py:766-794 | the retry loop from attempt 1; stated by `CollectDates.RetryFrom` and `CollectDatesProperties.RetryStopsAt` |
| `CollectDates.Retryable` | src/splynx_playwright.py:773-786 | the retry test on the lowered message; stated by `CollectDatesProperties.RetryableIff` |
| `CollectDates.OrNA` | src/splynx_playwright.py:798-800 | `x or "N/A"` is never empty and keeps a non-empty value |
| `CollectDates.IsMissing` | src/splynx_playwright.py:743-747 | `_is_missing`; stated by `CollectDatesProperties.NullIsMissing`, `CollectDatesProperties.NotAvailableIsMissing` and `CollectDatesProperties.EmptyDateStaysMissing` |
| `CollectDates.Fill` | src/splynx_playwright.py:802-807 | the three conditional writes; stated by `CollectDatesProperties.FillWrites`, `CollectDatesProperties.FillKeeps` and `CollectDatesProperties.FillAliased` |
| `CollectDates.WriteDates` | src/splynx_playwright.py:802-807 | the three conditional writes equal the specification |
| `CollectDates.ProcessRow` | src/splynx_playwright.py:749-829 | the loop body equals one step |
| `CollectDates.RowStep` | src/splynx_playwright.py:749-829 | one row of the loop; stated by `CollectDatesProperties.RowStepSkips`, `RowStepCounts` and `RowStepKeeps` |
| `CollectDates.RunFrom` | src/splynx_playwright.py:738-829 | the loop from the resume position, counters at zero, equals the run |
| `CollectDates.Run` | src/splynx_playwright.py:749-829 | the ticket loop; stated by `CollectDatesProperties.RunCounts`, `CollectDatesProperties.RunKeepsValues` and `CollectDatesProperties.RunCheckpoint` |
| `CollectDates.RunTickets` | src/splynx_playwright.py:713-829 | no valid IDs is an error, else the run after the checkpoint |
| `CollectDates.CollectOn` | src/splynx_playwright.py:658-829 | the collection on "Datos Completos" with the column numbers as written; stated by `CollectDatesProperties.CollectErrors` and `CollectResolvedCounts` |
| `CollectDates.CollectOnSheet` | src/splynx_playwright.py:658-829 | the collection on the sheet, with the column numbers as written, equals the specification |
| `CollectDates.Collect` | src/splynx_playwright.py:631-865 | the collection on the workbook, ending with the finished record; stated by `CollectDatesProperties.CollectReplacesOneSheet` and `CollectDatesProperties.FinishedRunRestarts` |
| `CollectDates.CollectDatesFromExcel` | src/splynx_playwright.py:631-865 | the collection, with the column numbers as written and the finished record at the end, equals the specification |
| `CollectDatesProperties.TicketRowsExact` | src/splynx_playwright.py:706-711 | a row is a ticket row iff it is a data row with a non-empty ID key, carrying that key |
| `CollectDatesProperties.ResumeAfter` | src/splynx_playwright.py:728-732 | resuming from the `k`-th ticket's row starts at ticket `k + 1` |
| `CollectDatesProperties.RetryStopsAt` | src/splynx_playwright.py:766-794 | retryable failures before attempt `t` and a stop at `t` end the loop at `t` with its outcome |
| `CollectDatesProperties.RetryableIff` | src/splynx_playwright.py:773-786 | "err_internet_disconnected" adds nothing: an error is retryable iff its lowered message contains one of the other seven markers |
| `CollectDatesProperties.RowStepSkips` | src/splynx_playwright.py:754-757 | a row is skipped, only counted, exactly when all three dates are present |
| `CollectDatesProperties.RowStepCounts` | src/splynx_playwright.py:754-815 | each row adds one to exactly one counter |
| `CollectDatesProperties.FillKeeps` | src/splynx_playwright.py:802-807 | the writes change only the missing date cells of the row |
| `CollectDatesProperties.FillWrites` | src/splynx_playwright.py:796-807 | each missing date cell gets the fetched date or "N/A" |
| `CollectDatesProperties.FillAliased` | src/splynx_playwright.py:796-807 | when the escalation number is the closed-date column, the closed date overwrites the escalation date there; the resolution date is written; nothing else changes |
| `CollectDatesProperties.RowStepKeeps` | src/splynx_playwright.py:749-829 | a row changes only its own missing date cells |
| `CollectDatesProperties.EmptyDateStaysMissing` | src/splynx_playwright.py:798-807 | a date the portal lacks stays missing ("N/A"), so the row is retried next run |
| `CollectDatesProperties.NotAvailableIsMissing` | src/splynx_playwright.py:743-747 | "N/A" reads as missing |
| `CollectDatesProperties.RunCounts` | src/splynx_playwright.py:749-815 | the counters grow by exactly the number of tickets in the loop |
| `CollectDatesProperties.RunKeepsValues` | src/splynx_playwright.py:802-807 | a cell that held a real value keeps it |
| `CollectDatesProperties.RunTouchesOnlyTicketDates` | src/splynx_playwright.py:749-829 | the loop writes only the date columns of ticket rows |
| `CollectDatesProperties.RunCheckpoint` | src/splynx_playwright.py:817-829 | the last checkpoint is the initial one or names a ticket of the loop |
| `CollectDatesProperties.CheckpointResumes` | src/splynx_playwright.py:724-829 | a run interrupted after some tickets resumes right after the last ticket it checkpointed |
| `CollectDatesProperties.ResumeAtCheckpoint` | src/splynx_playwright.py:724-732 | a checkpoint naming a processed ticket resumes right after it |
| `CollectDatesProperties.CollectResolvedCounts` | src/splynx_playwright.py:713-829 | an error iff there are no tickets; else the counters total the tickets after the checkpoint |
| `CollectDatesProperties.CollectErrors` | src/splynx_playwright.py:652-715 | each early exit happens exactly when its check is the first to fail |
| `CollectDatesProperties.CollectReplacesOneSheet` | src/splynx_playwright.py:652-842 | the collection changes "Datos Completos" and no other sheet |
| `CollectDatesProperties.CollectEndsFinished` | src/splynx_playwright.py:849-860 | a finished collection leaves the `done` record with its counters, and no row, in the progress file |
| `CollectDatesProperties.RestartAfterFinished` | src/splynx_playwright.py:724-733 | a run reading the `done` record starts at the first ticket and runs over all of them |
| `CollectDatesProperties.FinishedRunRestarts` | src/splynx_playwright.py:724-860 | after a finished collection the next run starts at the first ticket and counts every ticket |
| `CollectDatesProperties.AsWrittenLosesEscalation` | src/splynx_playwright.py:682-815 | as written, on headers ID and closed date, the run updates ticket 7 with the closed date in column 3 and the resolution date in column 2, and leaves the escalation column 4 empty |
| `CollectDatesProperties.AsWrittenLosesIdColumn` | src/splynx_playwright.py:682-715 | as written, on headers closed date and ID, no ticket is found and the run stops with "no valid IDs" |
| `CollectDatesProperties.CorrectedFindsIdColumn` | src/splynx_playwright.py:682-711 | with the numbers moved along, the same sheet yields ticket 7 in row 2 |
| `CustomerUpsert.GetOrCreateSheet` | src/splynx_playwright.py:1398-1407 | the named sheet; else the lone empty default sheet renamed; else a new sheet at the end |
| `CustomerUpsert.IndexOfAppend` | src/splynx_playwright.py:1407 | a sheet appended under a new name is found at the end |
| `CustomerUpsert.PutRow` | src/splynx_playwright.py:2142 | `ws.append` writes the three values into columns 1 to 3 of the row |
| `CustomerUpsert.BootstrapAsWritten` | src/splynx_playwright.py:2140-2144 | on an empty sheet the headers are appended to row 2, because reading `A1` created row 1 |
| `CustomerUpsert.Bootstrap` | src/splynx_playwright.py:2140-2144 | corrected: on an empty sheet the headers are row 1; otherwise the sheet is unchanged |
| `CustomerUpsert.EnsureCol` | src/splynx_playwright.py:2153-2162 | the indexed column of the name's key, or a new column past the last holding the name |
| `CustomerUpsert.Prepare` | src/splynx_playwright.py:2146-2166 | the three columns found or appended; stated by `CustomerUpsertProperties.PrepareKeys`, `PrepareReuses` and `PrepareFrame` |
| `CustomerUpsert.FindCustomer` | src/splynx_playwright.py:2172-2178 | the first row from 2 whose ID key is the customer's, none iff there is none |
| `CustomerUpsert.TargetRow` | src/splynx_playwright.py:2172-2181 | the found row, else a new last row |
| `CustomerUpsert.Record` | src/splynx_playwright.py:2180-2187 | the ID into a new row, then Socio and Residencia when given |
| `CustomerUpsert.UpsertSheet` | src/splynx_playwright.py:2140-2187 | the upsert on the sheet as written (headers of an empty sheet appended to row 2): none iff the customer ID has no key |
| `CustomerUpsert.UpsertSheetCorrected` | src/splynx_playwright.py:2140-2187 | the same with the headers bootstrapped into row 1: none iff the customer ID has no key |
| `CustomerUpsert.Upsert` | src/splynx_playwright.py:2136-2189 | the workbook saved, none when nothing is saved |
| `CustomerUpsert.EnsureColumn` | src/splynx_playwright.py:2153-2162 | `_ensure_col` on the sheet and index equals the specification |
| `CustomerUpsert.ScanCustomer` | src/splynx_playwright.py:2173-2178 | the search loop with its `break` equals the specification |
| `CustomerUpsert.PrepareSheet` | src/splynx_playwright.py:2140-2166 | the bootstrap as written (append to row `max_row + 1`), the index and the three columns equal the specification |
| `CustomerUpsert.RecordCustomer` | src/splynx_playwright.py:2172-2187 | the search and the writes equal the specification |
| `CustomerUpsert.UpsertOnSheet` | src/splynx_playwright.py:2140-2187 | the upsert on the sheet equals the specification |
| `CustomerUpsert.UpsertCustomerMinimal` | src/splynx_playwright.py:2136-2189 | the whole upsert equals the specification |
| `CustomerUpsertProperties.DefaultNamesWellKeyed` | src/splynx_playwright.py:2164-2166 | the three header names have non-empty, pairwise different keys |
| `CustomerUpsertProperties.GetOrCreateIdempotent` | src/splynx_playwright.py:1398-1407 | asking twice for the same sheet gives the same sheet of the same workbook |
| `CustomerUpsertProperties.InitialIndexSound` | src/splynx_playwright.py:2146-2151 | the index read from row 1 maps each key to a column carrying it |
| `CustomerUpsertProperties.EnsureColSound` | src/splynx_playwright.py:2153-2162 | `_ensure_col` keeps the index sound and its entries, and returns a column carrying the key |
| `CustomerUpsertProperties.EnsureColFrame` | src/splynx_playwright.py:2153-2162 | `_ensure_col` writes at most one header cell past the last column and adds no row |
| `CustomerUpsertProperties.PrepareKeys` | src/splynx_playwright.py:2164-2166 | each column carries its name's key; different keys, different columns |
| `CustomerUpsertProperties.PrepareReuses` | src/splynx_playwright.py:2146-2166 | an existing header is reused at its first column; a missing one goes past the last |
| `CustomerUpsertProperties.PrepareFrame` | src/splynx_playwright.py:2153-2166 | preparing writes only header cells past the last column and adds no row |
| `CustomerUpsertProperties.RecordUpserts` | src/splynx_playwright.py:2172-2182 | afterwards the same search finds the customer at the target row; a row is added only when none was found |
| `CustomerUpsertProperties.RecordWrites` | src/splynx_playwright.py:2184-2187 | Socio and Residencia are written into the target row exactly when given, nothing else but a new row's ID |
| `CustomerUpsertProperties.RecordIdempotent` | src/splynx_playwright.py:2172-2187 | recording the same customer again changes no cell |
| `CustomerUpsertProperties.UpsertSheetRecords` | src/splynx_playwright.py:2140-2187 | the upsert as written finds the customer again under the ID column, with Socio and Residencia written when given |
| `CustomerUpsertProperties.UpsertSheetFrame` | src/splynx_playwright.py:2140-2187 | the three header keys are kept, and after the as-written bootstrap no row changes but row 1 and the customer's |
| `CustomerUpsertProperties.AppendedAt` | src/splynx_playwright.py:2153-2162 | a name whose key is not indexed gets column `max_column + 1`, which becomes the new `max_column`, and only that header cell is written |
| `CustomerUpsertProperties.AppendedColumns` | src/splynx_playwright.py:2146-2166 | on a three-column sheet without header keys the three columns are 4, 5, 6, each headed by its name |
| `CustomerUpsertProperties.AsWrittenPrepared` | src/splynx_playwright.py:2140-2166 | as written, a new sheet ends preparation with A1:C1 empty, the headers in D1:F1 and again in A2:C2, and columns 4, 5, 6 |
| `CustomerUpsertProperties.BootstrapAsWrittenMisplacesHeaders` | src/splynx_playwright.py:2140-2187 | as written, on a new sheet the headers are in D1:F1 and A2:C2, and the customer goes into row 3, columns 4 to 6 |
| `CustomerUpsertProperties.BootstrapPlacesHeaders` | src/splynx_playwright.py:2140-2187 | corrected, the headers fill row 1, the columns are 1 to 3 and the customer is row 2 |

## Left out

- File I/O. The model does not cover `load_workbook`, `wb.save`, the existence checks,
  the JSON layout of the progress file, the `.bak` copy and the atomic save. A file's
  existence and the progress file's row are inputs; the workbook that would be saved
  and what a finished run leaves in the progress file are outputs.
- The periodic saves of the collector (every 10 rows or 30 seconds) and its
  `PermissionError` exits. They depend on the clock and the file system.
- The browser. Playwright locators, waits, scrolling, clicks, keyboard presses and
  `_collect_dates_for_ticket` are inputs: an outcome per selector, the activity blocks
  as data, a fetch function per attempt.
- The polling inside `_wait_nonempty_any` and `_wait_enabled_any` (the deadline loop,
  `time.monotonic`, the `TimeoutError`), `_render_text`, `_recover_page_after_error` and
  the sleeps. They only wait, read the clock or redraw. Each wait is modelled by its
  outer try-in-order loop over the selectors, with one outcome per selector as for the
  clicks (`Locators.RunStep`). The `timeout_ms` a wait reads is checked for the errors
  `int` raises (`Locators.WaitTimeout`); its value only bounds the polling.
- The event loop, the threads, the progress messages and the "already running" guard
  of the collector. There is no concurrency in the model.
- The float branch of `_id_key` (`str(int(value))`). There is no float cell type.
- `IdKeys.IdKey` on an int cell of more than 4300 digits: `str(value)` raises
  `ValueError` there, outside any `try`. The model writes the digits.
- `IdKeys.IdKeyOfScientific` on a literal whose exponent is too large for Python to build
  the integer at all (`MemoryError`, or `decimal` refusing the operation). The model
  computes the digits and then applies the 4300-digit rule.
- `Text.Lower`: only ASCII and Latin-1 capitals are lowered. Python's `str.lower()` also
  maps other scripts (Latin Extended, Greek, Cyrillic) and turns `İ` into two characters.
- `Text.IsDigit`: a digit is `0`-`9`. Python's `\d` matches every Unicode decimal digit,
  so `_id_key("١٢٣")` is "١٢٣" in Python and "" in the model.
- `IdKeys.DigitRuns`: `\d+` runs of ASCII digits only, for the same reason. The same
  holds for the digits of the activity timestamps (`ActivityTime`).
- `unicodedata.normalize("NFKD")` is modelled only for the Latin-1 accented letters.
  Other compositions are not.
- Writing the CSV file in `extract_table_to_csv`. The model ends with the rows
  `csv.writer` would write.
- The template workbook's `read_only`/`data_only` loading in the reorder. The
  template's active sheet is an input.
- The `%d/%m/%Y %H:%M` and `%d/%m/%Y %I:%M %p` formats of `_parse_activity_datetime`.
  They can never match a candidate, because every candidate has seconds, so
  `ActivityTime.ClockHour` leaves them out.
- `Merge.SummaryHead`: the contract only bounds the number of summary rows. The row
  texts themselves are fixed by the function and appear in the sheet built by
  `Merge.BuildSummary`.
- `Merge.SummaryTail`: the contract only bounds the number of rows, for the same reason.
- `MissingIds.Dedup`: the contract only bounds the length. Its members, distinctness and
  order are the lemmas `MissingIds.DedupMembers`, `MissingIds.DedupDistinct` and
  `MissingIds.DedupFirstSeenOrder`.
- `ActivityTime.ParseActivityDateTime`: the contract states only validity. What it reads
  is stated for the timestamps Splynx shows (`ActivityTimeProperties.ParseStamp`,
  `ActivityTimeProperties.ParseStamp12`, `ActivityTimeProperties.ParseTakesLastStamp`),
  not for every input.

## Findings

| source | as written | input that shows it | evidently intended | confidence | as-written member | corrected member |
|---|---|---|---|---|---|---|
| src/splynx_playwright.py:2140-2144 | on a new, empty "Datos Clientes" sheet, reading `ws.cell(row=1, column=1)` creates row 1, so `ws.append` writes the headers into row 2; `_ensure_col` then finds no header in row 1 and writes "ID", "Socio", "Residencia/Urbanización" again into D1:F1, so the customer goes into row 3, columns 4 to 6, under a row 2 that reads as a data row | a workbook without "Datos Clientes" and a call with customer ID "123", socio "Ana", residencia "X" | the headers in A1:C1 and the customer in row 2, columns 1 to 3 | not executed | `CustomerUpsertProperties.BootstrapAsWrittenMisplacesHeaders` | `CustomerUpsertProperties.BootstrapPlacesHeaders` |
| src/splynx_playwright.py:682-695 | after `ws.insert_cols(cie_col)` only the closed-date column number is moved; the escalation and ID numbers keep their old values, so each one at or after the insertion point now names the column to the left of its header. The escalation number can then equal the closed-date number: the closed date overwrites the escalation date in the same cell and the escalation column stays empty. The ID number can name the closed-date column: no ticket is read and the run stops with "no encontré IDs válidos" | row 1 "ID", "Fecha Cierre (closed)" with ticket 7 in row 2 (escalation date lost in that run); row 1 "Fecha Cierre (closed)", "ID" with ticket 7 in row 2 (no ticket found) | every column number at or after the insertion moved one column to the right with its header | not executed | `CollectDatesProperties.AsWrittenLosesEscalation`, `CollectDatesProperties.AsWrittenLosesIdColumn` | `DateColumns.CorrectedEscalationMoved`, `CollectDatesProperties.CorrectedFindsIdColumn` |
