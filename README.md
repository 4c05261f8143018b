# Indicator engine of the VISA Ipojuca dashboard, in Dafny

`Indicadores.py` is a Streamlit dashboard for the sanitary-inspection service of Ipojuca.
It reads the team's case sheet, with one row per case, and reports two compliance indicators
for the period the user picks:

- **REALIZOU_30**: the first inspection happened within 30 days of the case's entry (`ENTRADA`);
- **FINALIZOU_90**: the case was concluded within 90 days of its entry.

This project is a verified model of that computation:

1. **Normalise**: strip the column names, parse the three date columns, and derive the entry year and month (`ANO`, `MES`).
2. **Filter**: by period, then by classification, and for the administrator by territory and coordination.
3. **Classify**: compute the deadlines and the two flags.
4. **Summarise**: totals and percentages.
5. **Partition**: build the two tables of late cases.
6. **Group**: sum the flags per coordination and per territory for the charts.

A small string function also rewrites the Google Sheets share link into its CSV export link.

The modules follow that structure:

| file | module | models |
|---|---|---|
| `wrappers.dfy` | `Wrappers` | Option / Result |
| `text.dfy` | `Text` | `str.strip()`, `str.find`, `str.split`, `str.join` |
| `sheet_url.dfy` | `SheetUrl` | `converter_para_csv` |
| `calendar.dfy` | `Calendar` | dates, day numbers, `timedelta(days=n)` |
| `frames.dfy` | `Frames` | the sheet, the normalised records, lines 79-87 |
| `selection.dfy` | `Selection` | boolean-mask row selection `df[mask]` |
| `filters.dfy` | `Filters` | period and membership filters, lines 96-130 |
| `deadlines.dfy` | `Deadlines` | deadlines and flags, lines 136-151 |
| `indicators.dfy` | `Indicators` | KPIs, group sums, late tables, lines 154-209 |
| `dashboard.dfy` | `Dashboard` | one pass of the script through all of the above |

Representation choices:

- **Dates.** A parsed date is a `CalendarDate`: a valid proleptic Gregorian year, month and day.
  - Timestamps are compared and shifted through `DayNumber`, the number of days since 1970-01-01.
  - `Calendar.DayNumberOrder` proves that this number follows calendar order.
  - `Calendar.NextDayNumber` and `Calendar.AddDaysNumber` prove that adding days adds to it.
- **Missing values.** NaT and NaN are `None`. Every comparison with `None` is false, as in pandas.
- **Percentages** are exact reals.
- **The sheet** is a header row plus rows of fields (`Blank` or `Field`), taken by position. `Frames.ReadCell` gives a field's value the way `read_csv` does with its defaults: an empty field and the default NA texts (the empty text of a quoted `""`, "NA", "N/A", "NULL", "NaN", "None", "#N/A", "<NA>" and the rest of `na_values`) are NaN. A row shorter than the header reads as NaN in its missing columns. Cells past the header are ignored.
- **Normalisation and filtering** are methods with the script's own steps:
  - a loop over the three date columns;
  - a sequence narrowed one filter at a time.
- **Flags, KPIs, partitions and group sums** are functions with lemmas.

In these cases the model follows what the code does:

- **Missing date column.** The code raises `KeyError` at line 83. It does not treat the column as all-missing. The model returns `Err(MissingColumn(name))` for the first of `ENTRADA`, `1ª INSPEÇÃO`, `DATA CONCLUSÃO` that is missing.
- **Empty multiselect.** `isin([])` keeps no rows; it does not mean "no restriction". `Filters.EmptySelectionKeepsNothing` states this.
- **Column lookup.** Columns are found by their exact stripped names. There is no substring detection.
- **Month selection.** The month is a single value, not a set.
- **Text normalisation.** There is no title-case or upper-case normalisation of the text columns.

## Model

| member | source | states |
|---|---|---|
| `Text.Strip` | Indicadores.py:79 | the result is the infix of the name left after removing Python whitespace at both ends; only whitespace was removed, and none remains at either end |
| `Text.StripIdempotent` | Indicadores.py:79 | stripping an already stripped name changes nothing |
| `Text.IndexOf` | Indicadores.py:64 | the result is the first position where the separator occurs, or None when it occurs nowhere |
| `Text.Split` | Indicadores.py:64-65 | there is always a first piece; there are two or more exactly when the separator occurs; the first piece is the text before its first occurrence |
| `Text.JoinSplit` | Indicadores.py:64-65 | joining the pieces with the separator gives back the original string |
| `Text.SplitPiecesAvoidSeparator` | Indicadores.py:64-65 | no piece contains the separator |
| `SheetUrl.CsvExportUrl` | Indicadores.py:63-66 | the rewrite fails (IndexError at `parts[1]`) exactly when the URL has no "/d/"; otherwise it is the export prefix, an identifier without "/", then "/export?format=csv" |
| `SheetUrl.CsvExportUrlIsSheetId` | Indicadores.py:63-66 | splitting on "/d/" and then on "/" yields exactly the text after the first "/d/" up to the next "/", wrapped in the export URL |
| `Calendar.NextDay` | Indicadores.py:139-140 | the next date is later in calendar order |
| `Calendar.NextDayNumber` | Indicadores.py:139-140 | the next date's day number is one more |
| `Calendar.AddDaysNumber` | Indicadores.py:139-140 | adding n days (`timedelta(days=n)`) adds n to the day number |
| `Calendar.DayNumberOrder` | Indicadores.py:108-109 | comparing day numbers, as the timestamp comparisons do, is comparing dates in calendar order, in both directions; equal numbers mean equal dates |
| `Frames.StripAll` | Indicadores.py:79 | every column name is replaced by its stripped form, position for position |
| `Frames.ColumnIndex` | Indicadores.py:112 | a column is found exactly when its name is in the header, at the first position holding that name |
| `Frames.CellAt` | Indicadores.py:72 | no contract of its own: the field of a row in a column, NaN (`Blank`) past the end of a short row; `Frames.ParseColumn` and `Frames.RowRecord` read every column through it |
| `Frames.ReadCell` | Indicadores.py:72 | a field is NaN exactly when it is empty or one of the default NA texts, the empty text included; otherwise its value is its own text |
| `Frames.ParseCell` | Indicadores.py:83 | no contract of its own: `to_datetime` on one field, NaT for a field read as NaN, otherwise `parse`; `Frames.ParseColumn` states it cell by cell |
| `Frames.TextAt` | Indicadores.py:112-130 | no contract of its own: a text column as read, NaN for a field read as NaN or an absent column; `Frames.RowRecord` and `Frames.Normalise` place it in each record |
| `Frames.ParseColumn` | Indicadores.py:82-83 | each cell of the column becomes its parsed date, or NaT when the field is read as NaN or does not parse |
| `Frames.FirstMissingDateColumn` | Indicadores.py:82-83 | None exactly when all three date columns exist; otherwise the first one in conversion order that is missing |
| `Frames.RowRecord` | Indicadores.py:86-87 | ANO and MES of a record are the year and month of its entry date, and are missing when it is |
| `Frames.AssembleRows` | Indicadores.py:86-87 | the records zipped from the converted date columns are, row by row, the `Frames.RowRecord` of each sheet row, so ANO and MES come from the converted ENTRADA |
| `Frames.YearOf` | Indicadores.py:86 | no contract of its own: `.dt.year`, NaN for NaT; `Frames.RowRecord` and `Filters.YearMonthSelects` state that ANO is the entry date's year |
| `Frames.MonthOf` | Indicadores.py:87 | no contract of its own: `.dt.month`, NaN for NaT; `Frames.RowRecord` and `Filters.YearMonthSelects` state that MES is the entry date's month |
| `Frames.SheetRecords` | Indicadores.py:79-87 | the normalised rows: one per sheet row, in order, each with ANO/MES derived from its entry date |
| `Frames.ConvertDateColumns` | Indicadores.py:82-83 | the loop fails exactly when a date column is missing, naming the first one missing; otherwise it yields the three parsed columns |
| `Frames.Normalise` | Indicadores.py:79-87 | the error cases as above, naming the first missing date column; otherwise the table is the stripped header with `Frames.SheetRecords` of the sheet: one record per sheet row, each built from its own cells, with ANO/MES derived from ENTRADA |
| `Selection.Where` | Indicadores.py:103 | a mask selection keeps at most the input's rows, and an element is in the result exactly when it is in the input and the mask admits it |
| `Selection.WhereIsSubsequence` | Indicadores.py:115 | a mask selection keeps the input order |
| `Selection.WhereAppend` | Indicadores.py:115 | a selection from a concatenation is the concatenation of the selections |
| `Selection.WhereWhere` | Indicadores.py:112-130 | two successive selections are one selection by the conjunction |
| `Selection.WhereCommutes` | Indicadores.py:112-130 | the order in which two filters run does not change the result |
| `Selection.WhereSplits` | Indicadores.py:208-209 | a mask and its negation split the rows into two parts whose sizes add up, and which together hold every row as often as the input does |
| `Filters.InPeriod` | Indicadores.py:103-109 | no contract of its own: the period mask; `Filters.YearMonthSelects` and `Filters.DateRangeSelects` state which rows it admits |
| `Filters.IsIn` | Indicadores.py:115 | no contract of its own: `isin` for one row, false for NaN; `Filters.DefaultSelectionDropsMissing` and `Filters.EmptySelectionKeepsNothing` state its effect |
| `Filters.Applies` | Indicadores.py:112-130 | no contract of its own: a membership filter runs when its column exists, and territory and coordination only for the administrator; `Filters.ApplyFilters` and `Filters.EmptySelectionKeepsNothing` state its effect |
| `Filters.Admitted` | Indicadores.py:96-130 | no contract of its own: the combined condition, the period and every membership filter that runs; `Filters.ApplyFilters` states that the step-by-step narrowing selects exactly the rows meeting it |
| `Filters.ApplyFilters` | Indicadores.py:96-130 | the step-by-step narrowing equals one stable selection by a single condition: the period, plus each membership filter that runs (classification when its column exists; territory and coordination only for the administrator and when their columns exist) |
| `Filters.YearMonthSelects` | Indicadores.py:86-103 | on normalised records, year/month mode keeps exactly the rows whose entry date is in that year and month; rows without an entry date are never kept |
| `Filters.DateRangeSelects` | Indicadores.py:105-109 | range mode keeps exactly the rows whose entry date lies between the two ends in calendar order, both ends included; rows without an entry date are never kept |
| `Filters.Observed` | Indicadores.py:113 | the multiselect options are exactly the non-missing values of the column: every such value is offered, and every offered value occurs in some row |
| `Filters.DefaultSelectionDropsMissing` | Indicadores.py:112-115 | with the default selection (all values observed in the table), a membership filter removes exactly the rows whose value is missing |
| `Filters.EmptySelectionKeepsNothing` | Indicadores.py:114-115 | an empty multiselect whose filter runs leaves no rows |
| `Filters.FiltersIdempotent` | Indicadores.py:96-130 | filtering an already filtered table again with the same choices changes nothing |
| `Calendar.AddDays` | Indicadores.py:139-140 | no contract of its own: `d + timedelta(days=n)`; `Calendar.AddDaysNumber` states that it adds n to the day number |
| `Deadlines.Deadline` | Indicadores.py:139-140 | NaT exactly when the entry date is NaT; otherwise the date whose day number is the entry's plus the allowance |
| `Deadlines.NotLater` | Indicadores.py:143-151 | no contract of its own: `date.notna() & (date <= deadline)`, false when either side is NaT; `Deadlines.Classify` states the resulting flags |
| `Deadlines.Classify` | Indicadores.py:139-151 | DEADLINE_30 and DEADLINE_90 are the entry date plus 30 and plus 90 days; REALIZOU_30 holds exactly when the inspection and entry dates are present and the inspection is at most 30 days after entry; FINALIZOU_90 likewise for the conclusion and 90 days; a missing entry date leaves both deadlines missing and both flags false |
| `Deadlines.ClassifyAll` | Indicadores.py:136-151 | every row of the filtered table is classified, in order, with none added or dropped |
| `Deadlines.ClassifyAllRecords` | Indicadores.py:136 | every classified row carries a record of the filtered table |
| `Deadlines.FirstDeadlineInclusive` | Indicadores.py:139-146 | for every entry date, an inspection exactly 30 days later is on time and one 31 days later is late |
| `Deadlines.SecondDeadlineInclusive` | Indicadores.py:140-151 | for every entry date, a conclusion exactly 90 days later is on time and one 91 days later is late |
| `Deadlines.JanuaryScenario` | Indicadores.py:143-146 | entry 2024-01-01: an inspection on 2024-01-31 is on time, one on 2024-02-01 is not |
| `Indicators.Count` | Indicadores.py:155-156 | the sum of a flag column is at most the number of rows |
| `Indicators.CountAppend` | Indicadores.py:155-156 | flag sums add up over concatenated tables |
| `Indicators.CountIsSelection` | Indicadores.py:155-156 | the sum of a flag is the number of rows a mask on that flag selects |
| `Indicators.Percentage` | Indicadores.py:158-159 | 0 for an empty set; otherwise the percentage times the total is the count times 100; it lies in [0, 100] when the count is at most the total |
| `Indicators.Summarise` | Indicadores.py:154-159 | the total is the number of filtered rows; each on-time count is its flag's sum and is at most the total; each percentage is `Indicators.Percentage` of its count over the total (0 for no rows, otherwise count·100/total) and lies in [0, 100] |
| `Indicators.LateFirst` | Indicadores.py:208 | holds exactly the rows whose REALIZOU_30 is false |
| `Indicators.LateSecond` | Indicadores.py:209 | holds exactly the rows whose FINALIZOU_90 is false |
| `Indicators.LateFirstPartition` | Indicadores.py:208 | `df_atraso_30` holds exactly the rows with REALIZOU_30 false, in input order, and its size plus the on-time count is the total |
| `Indicators.LateSecondPartition` | Indicadores.py:209 | `df_atraso_90` holds exactly the rows with FINALIZOU_90 false, in input order, and its size plus the on-time count is the total |
| `Indicators.LateSetsIndependent` | Indicadores.py:208-209 | the cases late on both counts are the same whichever late table they are taken from, and a case is in both tables exactly when both its flags are false |
| `Indicators.GroupTotals` | Indicadores.py:192-198 | no contract of its own: `groupby(column)[flags].sum()` as a fold over the rows; `Indicators.GroupTotalsAreGroupCounts` states its keys and sums |
| `Indicators.GroupTotalsAreGroupCounts` | Indicadores.py:192-198 | the group-by sums have one group per non-missing value of the column (rows with a missing key belong to none), and each group's entry is the number of its rows with each flag set |
| `Indicators.GroupKeysAreObserved` | Indicadores.py:192-198 | the chart's groups over the classified rows are exactly the non-missing values of the column among their records, the same set `Filters.Observed` gives |
| `Dashboard.GroupSums` | Indicadores.py:190-200 | chart data exists exactly when the column exists |
| `Dashboard.Run` | Indicadores.py:76-209 | a pass fails exactly when a date column is missing, naming the first one missing; otherwise the classified rows are `ClassifyAll` of the sheet's records that meet the combined filter, in order; the KPIs summarise them; every classified row has ANO/MES derived from its entry date; the administrator alone gets the detail, whose late tables are the two partitions and whose chart sums exist exactly when their column does |

## Left out

- Streamlit presentation: page configuration, the title, forms, sidebar widgets, metrics, tables, charts and `st.stop`/rerun control flow (lines 12-54, 92-101, 165-215). The widget choices enter as `Filters.Criteria`.
- The login and its session-state `auth` flag (lines 17-46), which compare against hard-coded credentials. The model takes `isAdmin` as a parameter. A standard user's session stops after the KPIs (line 175), so `Dashboard.Run` returns the detail only for the administrator.
- Fetching the sheet with `pd.read_csv` and caching it with `st.cache_data(ttl=600)` (lines 69-76) are network I/O and a library cache. The sheet is an input, as fields of text or empty. `read_csv`'s numeric type inference is not modelled.
- The date parser `pd.to_datetime(..., dayfirst=True, errors="coerce")` (line 83) is a library call. It is the parameter `parse`, applied cell by cell. pandas' inference of one format for the whole column is not modelled.
- Time of day: dates are whole days. A timestamp carrying a time is not modelled. Neither is pandas' representable range (years 1677-2262).
- `Indicators.Percentage`: the exact count·100/total is kept. `round(..., 2)` on a float (lines 158-159) is not modelled, because it is floating-point behaviour.
- Duplicate column names after stripping: the model reads the first matching column. pandas would return several columns and then fail or behave differently.
- Columns outside the case model (such as status) are carried along by the script only for display. They are not modelled.
- The group-by result is a map from key to sums. Its rows' sort order and the Plotly charts (lines 188-200) are presentation.
- The options offered by the selectboxes and multiselects, including their sorting and the default range ends (lines 97-101, 106-107, 113, 122, 128), are UI. `Filters.Observed` gives the default multiselect selection.
- In year/month mode with no dated rows, the selectboxes have no options and return `None`, which matches no row (line 103). `Filters.Period.YearMonth` takes an integer year and month, so this case is not modelled.
- Rows longer than the header: `read_csv` raises a ParserError, or, when every row has one extra field, uses the first column as the index. The model ignores cells past the header, so it covers neither behaviour.
- The configured share link `GSHEET_URL` (line 60) is deployment data. `SheetUrl.CsvExportUrl` takes the URL as input.
