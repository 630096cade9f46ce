# Petty-cash ledger: a verified model of its import and query pipelines

The petty-cash tool is a small bookkeeping application for one organisation's
clerks. It has two pages. The import page reads a spreadsheet of expenses,
normalises the rows and appends the accepted ones to a local ledger. The
query page reads the ledger back, narrows it by date range, person and note
category, and shows the rows with a grand total. Dates are written in the
Minguo (Republic of China) era, `era.month.day`, where the calendar year is
the era year plus 1911. For example, `113.05.20` is 20 May 2024.

This Dafny project models the non-presentation logic of `app.py` and proves
the properties that logic promises:

- `wrappers.dfy` (`Wrappers`): `Option`, for empty cells and unparseable dates.
- `text.dfy` (`Text`): ASCII digits, decimal numerals, `f"{n}"` and
  `f"{n:02}"`, and `str.strip()`. Stripping uses the fixed set of characters
  that Python's `str.isspace()` accepts.
- `seqs.dfy` (`Seqs`): the data-frame operations the pages use, on sequences.
  These are `df[mask]`, filtering, counting, mapping a column and summing.
  The generic lemmas prove order preservation (subsequence), membership and
  counts.
- `era_date.dfy` (`EraDate`): the era-date codec. `ParseEraDate` is
  `convert_to_datetime`, written as a character-level lexer with no regular
  expression. `FormatEraDate` is the display column. Validity follows the
  Gregorian calendar, including leap years. `IsImportDate` is the stricter
  pattern the import page checks.
- `import.dfy` (`Import`): the import normaliser and the ledger.
  - Missing names are forward-filled (`ForwardFill`, a loop carrying the last
    name seen).
  - Amounts are coerced to numbers, and anything unparseable becomes 0.
  - The total is recomputed, and each row gets the batch timestamp.
  - Rows are filtered on the import date pattern, and the skipped ones are
    counted.
  - The notes are trimmed.
  - `Ledger` is the stored table, kept as an append-only sequence. Its
    invariant is that every stored record is well formed.
- `query.dfy` (`Query`): the query engine.
  - `RunQuery` performs the page's steps one `df[mask]` at a time. The
    category mask is built with `|=`, as the source does.
  - It is proved equal to the function `Evaluate`.
  - Lemmas prove that the result is the order-preserving subsequence of
    stored records that meet all three conditions, and what each shown row
    carries.

The codec is written exactly as the code behaves, not as one might expect.
The era year has two or three digits, so it is always below 1911. The
fallback that keeps a year of 1911 or more unchanged (app.py:127) can
therefore never run. A Gregorian date such as `2024.05.20` does not match the
pattern and parses to NaT (`ParseGregorianYear`). One might expect the
fallback to keep a four-digit year such as 2024, but the code never reaches
it, and the model follows the code.

## Model

| member | source | states |
|---|---|---|
| `Text.NatToString` | app.py:177 | `f"{n}"` yields a non-empty numeral of decimal digits that denotes `n`; it starts with `0` only when it is exactly `"0"` |
| `Text.NatToStringOfValue` | app.py:125-126 | reading a numeral with no leading zero (`int(...)`) and printing it back gives the same numeral |
| `Text.NatToStringWidth` | app.py:177 | numbers 10..999 print as two or three digits, the widths the date patterns allow |
| `Text.Pad2` | app.py:177 | `f"{n:02}"` for n < 100 is exactly two digits that denote n |
| `Text.Pad2OfValue` | app.py:177 | any two-digit group re-padded after `int(...)` gives the same two digits |
| `Text.Strip` | app.py:102 | the stripped note has no whitespace at either end |
| `Text.StripCutsSpace` | app.py:102 | strip returns a contiguous middle slice and removes only whitespace, from the start and the end |
| `Text.StripNonEmpty` | app.py:162 | `note.strip() != ''` holds iff the note contains a character that is not whitespace |
| `Seqs.Filter` | app.py:94-97 | a row filter returns at most as many rows as it is given, and every row it keeps satisfies the test |
| `Seqs.FilterIsSubsequence` | app.py:94-97 | a filter keeps rows in their original relative order |
| `Seqs.FilterMembers` | app.py:143 | a row is kept iff it is in the input and satisfies the test |
| `Seqs.FilterCount` | app.py:98 | the number of kept rows is the number of input rows that satisfy the test |
| `Seqs.CountSplit` | app.py:93-99 | kept rows plus dropped rows equal all rows, so skipped = total - valid is never negative |
| `Seqs.CountZero` | app.py:135 | `notna().sum() == 0` holds iff no element satisfies the test |
| `Seqs.MaskedIsFilter` | app.py:94 | applying a boolean mask built from a test (`df[mask]`) is filtering by that test |
| `Seqs.FilterFilter` | app.py:143-149 | filtering twice in a row is one filter by the conjunction of the two tests |
| `Seqs.Select` | app.py:167 | the row-by-row selection loop returns exactly the rows the mask marks, in order |
| `Seqs.Total` | app.py:183 | the accumulation loop returns the sum of the column |
| `Seqs.CountWhere` | app.py:135 | the counting loop returns the number of elements that satisfy the test |
| `EraDate.DaysInMonth` | app.py:128 | months have 28-31 days, and the month has 29 days iff it is February of a Gregorian leap year |
| `EraDate.Lex` | app.py:123 | when the lexer accepts, its three groups have 2-3, 1-2 and 1-2 ASCII digits |
| `EraDate.LexSound` | app.py:123 | every accepted string is `y.m.d` built from the returned groups |
| `EraDate.LexComplete` | app.py:123 | every string of the shape `^(\d{2,3})\.(\d{1,2})\.(\d{1,2})$` is accepted, with exactly its groups |
| `EraDate.IsImportDate` | app.py:96 | an import-shaped date is 8 or 9 characters: a 2-3 digit year, a dot, two digits, a dot, two digits (both directions in `ImportDateShape`) |
| `EraDate.ImportDateShape` | app.py:96 | the import check holds iff the string has the shape `^\d{2,3}\.\d{2}\.\d{2}$` |
| `EraDate.ParseEraDate` | app.py:121-131 | a parsed date is a real calendar date with a year between 1911 and 2910 |
| `EraDate.ParseAccepts` | app.py:123-128 | a string of the pattern's shape parses to (era + 1911, month, day) if that is a calendar day, and to NaT otherwise |
| `EraDate.ParseSound` | app.py:123-128 | whatever parses has the pattern's shape, and its year is the era year plus 1911 |
| `EraDate.ParseMissing` | app.py:129-131 | a missing cell yields NaT instead of raising |
| `EraDate.ParseGregorianYear` | app.py:123-127 | `2024.05.20` yields NaT: a four-digit year never reaches the `else year` fallback |
| `EraDate.ParseInvalidDay` | app.py:128-131 | `113.13.40` yields NaT, because `datetime` rejects month 13 |
| `EraDate.ParseNotADate` | app.py:123-131 | `abc` yields NaT |
| `EraDate.FormatEraDate` | app.py:177 | the display has a dot before the last two 2-digit groups, which denote the month and the day, and for years from 1911 on the part before them is the plain numeral of year - 1911, with no leading zero unless it is `0` (read back by `ParseFormat`, shape by `FormatIsImportDate`) |
| `EraDate.FormatIsImportDate` | app.py:177 | a date in the calendar years 1921..2910 is displayed in the shape the import accepts |
| `EraDate.ParseFormat` | app.py:177 | parsing the displayed form of a date in the years 1921..2910 gives back the date |
| `EraDate.FormatParse` | app.py:177 | an import-shaped date that parses and has no leading zero in the era year is displayed exactly as stored |
| `Import.FilledNames` | app.py:86 | forward fill keeps the number of rows |
| `Import.ForwardFill` | app.py:86 | the loop carrying the last seen name yields, at each row, the last present name at or above it |
| `Import.FilledIsNearestAbove` | app.py:86 | a row ends up with name v iff v is the nearest present name at or above it, so present names are unchanged |
| `Import.FilledMissing` | app.py:86 | a row stays nameless iff no name is present at or above it |
| `Import.ParseUnsigned` | app.py:87-88 | a parsed unsigned amount is never negative |
| `Import.ParseDecimal` | app.py:87 | a parsed number is negative only when the cell starts with `-`, and a leading `-` never gives a positive value (values pinned by `CoerceWholeNumber`, `CoerceCents`) |
| `Import.CoerceAmount` | app.py:87-88 | a non-zero amount is the value of a present numeric cell, so every other cell becomes 0 (see `CoerceNonNumeric`), and a negative amount comes from a cell starting with `-` |
| `Import.CoerceWholeNumber` | app.py:87-88 | a whole number, signed or not, is read as itself |
| `Import.CoerceCents` | app.py:87-88 | `n.cc` is read as n + cc/100 |
| `Import.CoerceNonNumeric` | app.py:87-88 | empty, missing and non-numeric cells such as `N/A` become 0 |
| `Import.StagedRows` | app.py:86-90 | staging keeps one row per input row |
| `Import.StagedAmounts` | app.py:87-90 | every row's amounts are the coerced cells, its total is their sum (the raw total is ignored), and it carries the batch stamp |
| `Import.NameFilledBeforeFilter` | app.py:86-97 | a name on a row the date filter drops fills the kept rows below it up to the next name: such a kept row is accepted and carries that name |
| `Import.CleanNote` | app.py:101-102 | a cleaned note is never missing and has no whitespace at either end |
| `Import.Accepted` | app.py:86-102 | every accepted record has an import-shaped date, total = institution + personal, three trimmed notes and the batch stamp |
| `Import.AcceptedIff` | app.py:94-97 | a row is kept iff its date cell is present and matches `^\d{2,3}\.\d{2}\.\d{2}$` |
| `Import.AcceptedInOrder` | app.py:94-97 | accepted records keep the relative order of their rows |
| `Import.SkippedRows` | app.py:93-99 | accepted plus skipped rows equal all rows, and skipped counts the rows without an import-shaped date |
| `Import.Normalise` | app.py:72-102 | the import pipeline returns exactly the accepted records, and skipped = total - valid = the rows without an import-shaped date |
| `Import.CleanNotes` | app.py:101-102 | the note-cleaning loop cleans every kept row, in order |
| `Import.Ledger.constructor` | app.py:45-61 | a new ledger is empty and well formed |
| `Import.Ledger.Import` | app.py:106-109 | committing an upload appends exactly its accepted records, keeps every stored record well formed, and stored + skipped = rows uploaded |
| `Import.Ledger.ReadAll` | app.py:118 | reading the table returns every stored record, each well formed |
| `Query.RunQuery` | app.py:133-183 | the page's step-by-step filtering equals `Evaluate`, the count is the number of rows, and the grand total is the sum of their totals |
| `Query.Evaluate` | app.py:133-183 | when rows are found, the count is the number of rows and never exceeds the stored records (rows characterised by `QueryRowsSound`, `QueryRowsComplete`, `QueryInOrder`) |
| `Query.ToResult` | app.py:169-177 | a result row keeps its record and parsed date, its summary is as long as the three notes together, an unparsed date displays empty, and a date of era years 10..999 displays in import shape and parses back to itself |
| `Query.CategoryCondition` | app.py:159-167 | the accumulated condition holds for a row iff some ticked category's note has text |
| `Query.OrHasText` | app.py:160-166 | OR-ing `note.strip() != ''` into the condition updates every position, and only that way |
| `Query.QueryStops` | app.py:133-137 | the query stops with a warning iff no stored date parses |
| `Query.QueryIsOneFilter` | app.py:143-167 | the range, name and category stages together keep exactly the records that satisfy all three conditions |
| `Query.QueryRowsSound` | app.py:143-177 | every shown row has a date in [start, end], the selected name unless `全部`, text in a ticked note when any box is ticked, summary = the three notes joined, and display = its era date |
| `Query.QueryRowsComplete` | app.py:143-167 | every stored record that satisfies all three conditions is shown |
| `Query.QueryInOrder` | app.py:143-167 | shown rows are an order-preserving subsequence of the stored records |
| `Query.CategoryMeaning` | app.py:159-166 | with boxes ticked, a record passes iff one of the ticked notes has a non-whitespace character (OR, not AND) |
| `Query.TotalsSplit` | app.py:183 | when every row's total is its two amounts (true of every well-formed record), the grand total is the institution amounts plus the personal amounts |
| `Query.DisplayMatchesStored` | app.py:177 | a stored date that parses and has no leading zero is shown exactly as stored |

## Left out

- Presentation: page setup, the CSS, page selection and every widget are not
  modelled (app.py:7-40, 64-70, 104, 109-111, 136, 147, 151-157, 176,
  178-183). The start and end dates, the selected name and the three
  category flags are parameters of `Query.Evaluate`.
- Presentation: the date picker's default range (app.py:139-141) and the
  list of names offered (app.py:146) are not modelled.
- Presentation: the 1-based display index (app.py:179) and the `,.0f`
  currency format of the total (app.py:183) are not modelled.
- Storage: the SQLite connection, `CREATE TABLE`, `to_sql` and
  `read_sql_query` (app.py:43-61, 108, 118) are replaced by `Import.Ledger`,
  an append-only sequence of records.
- Storage: the table declares its total column as `総金額` (app.py:55), but
  the saved frame calls it `總金額` (app.py:89, 107). This name mismatch
  between store and frame is not modelled.
- Spreadsheet decoding: `read_excel` with `skiprows=3`, the cut to eight
  columns and the renaming (app.py:72-84) are not modelled. The model
  starts from rows of eight optional text cells (`Import.RawRow`).
- Spreadsheet decoding: the error reported for an unreadable file or for
  fewer than eight columns (app.py:113-114) is not modelled.
- Clock: `datetime.now()` and its `strftime` format (app.py:90) are replaced
  by a `stamp` parameter.
- Import.ParseUnsigned: amounts are exact reals in the grammar
  `[+-]? (d+ ('.' d*)? | '.' d+)`. `pd.to_numeric` also accepts surrounding
  whitespace, exponents, `inf` and `nan`, and works in floating point with
  rounding. None of that is modelled.
- Regular expressions: `\d` is ASCII digits only, and `$` means the end of
  the string (Python also matches before a trailing newline).
- Notes read back from storage are always strings. A NULL note from another
  writer would read as NaN at app.py:162-166, and that case is not modelled.
- Stored dates are always strings (`Import.Record.date`). `ParseEraDate`
  still handles a missing cell.
- Import.CleanNotes: the notes are cleaned row by row, where app.py:101-102
  works column by column. The result is the same.
