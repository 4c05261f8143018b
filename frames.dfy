/** The case table: the sheet as read from CSV, and the normalised records the
    indicators are computed from (column names stripped, the three date columns
    parsed, entry year and month derived). */
module Frames {
  import opened Wrappers
  import opened Text
  import opened Calendar

  const ENTRADA: string := "ENTRADA"
  const INSPECAO: string := "1ª INSPEÇÃO"
  const CONCLUSAO: string := "DATA CONCLUSÃO"
  const CLASSIFICACAO: string := "CLASSIFICAÇÃO"
  const TERRITORIO: string := "TERRITÓRIO"
  const COORDENACAO: string := "COORDENAÇÃO"

  /** The date columns converted one after the other, in this order. */
  const DATE_COLUMNS: seq<string> := [ENTRADA, INSPECAO, CONCLUSAO]

  /** A CSV field as it stands in the file: empty, or some (possibly quoted) text. */
  datatype Cell = Blank | Field(text: string)

  /** The texts `read_csv` reads as NaN by default (its `na_values`), the empty text
      (an empty quoted field) among them. */
  const NA_VALUES: set<string> := {
    "", "#N/A", "#N/A N/A", "#NA", "-1.#IND", "-1.#QNAN", "-NaN", "-nan", "1.#IND", "1.#QNAN",
    "<NA>", "N/A", "NA", "NULL", "NaN", "None", "n/a", "nan", "null"
  }

  /** The value `read_csv` gives a field: NaN (None) for an empty field or a default
      NA text, and the text itself otherwise. */
  function ReadCell(c: Cell): (v: Option<string>)
    ensures v.None? <==> c.Blank? || c.text in NA_VALUES
    ensures v.Some? ==> c == Field(v.value)
  {
    match c
    case Blank => None
    case Field(s) => if s in NA_VALUES then None else Some(s)
  }

  /** The sheet as read: a header of column names and rows of cells, by position. */
  datatype Sheet = Sheet(columns: seq<string>, rows: seq<seq<Cell>>)

  /** One case after normalisation. A None date is NaT, a None text is NaN;
      `year` and `month` are the ANO and MES columns. */
  datatype Record = Record(
    entry: Option<CalendarDate>,
    firstInspection: Option<CalendarDate>,
    conclusion: Option<CalendarDate>,
    classification: Option<string>,
    territory: Option<string>,
    coordination: Option<string>,
    year: Option<int>,
    month: Option<int>)

  /** The normalised table: the stripped column names and one record per sheet row. */
  datatype Table = Table(columns: seq<string>, rows: seq<Record>)

  /** Looking up a date column that is not in the sheet raises KeyError. */
  datatype NormaliseError = MissingColumn(name: string)

  /** `[c.strip() for c in columns]`. */
  function StripAll(columns: seq<string>): (r: seq<string>)
    ensures |r| == |columns|
    ensures forall i :: 0 <= i < |r| ==> r[i] == Strip(columns[i])
  {
    if columns == [] then [] else [Strip(columns[0])] + StripAll(columns[1..])
  }

  /** Position of the first column called `name`. */
  function ColumnIndex(columns: seq<string>, name: string): (r: Option<nat>)
    ensures r.None? <==> name !in columns
    ensures r.Some? ==> r.value < |columns| && columns[r.value] == name
                        && forall j :: 0 <= j < r.value ==> columns[j] != name
  {
    if columns == [] then None
    else if columns[0] == name then Some(0)
    else match ColumnIndex(columns[1..], name)
      case None => None
      case Some(k) => Some(k + 1)
  }

  /** The cell of `row` in column `i`; a row shorter than the header reads as NaN there. */
  function CellAt(row: seq<Cell>, i: nat): Cell {
    if i < |row| then row[i] else Blank
  }

  /** `pd.to_datetime` on one cell, with `parse` the day-first, coercing parser:
      a field read as NaN is NaT, a text that does not parse is NaT too (None). */
  function ParseCell(c: Cell, parse: string -> Option<CalendarDate>): Option<CalendarDate> {
    match ReadCell(c)
    case None => None
    case Some(s) => parse(s)
  }

  /** `pd.to_datetime(df[col], dayfirst=True, errors="coerce")` on column `i`. */
  function ParseColumn(rows: seq<seq<Cell>>, i: nat, parse: string -> Option<CalendarDate>):
    (r: seq<Option<CalendarDate>>)
    ensures |r| == |rows|
    ensures forall k :: 0 <= k < |rows| ==> r[k] == ParseCell(CellAt(rows[k], i), parse)
  {
    if rows == [] then [] else [ParseCell(CellAt(rows[0], i), parse)] + ParseColumn(rows[1..], i, parse)
  }

  /** A text column as read: NaN for a field read as NaN and for an absent column. */
  function TextAt(columns: seq<string>, row: seq<Cell>, name: string): Option<string> {
    match ColumnIndex(columns, name)
    case None => None
    case Some(i) =>
      ReadCell(CellAt(row, i))
  }

  /** `.dt.year` (and likewise `.dt.month`): NaN for NaT. */
  function YearOf(d: Option<CalendarDate>): Option<int> {
    match d
    case None => None
    case Some(x) => Some(x.year)
  }

  function MonthOf(d: Option<CalendarDate>): Option<int> {
    match d
    case None => None
    case Some(x) => Some(x.month)
  }

  /** ANO and MES agree with ENTRADA: a record with no entry date has neither. */
  predicate PeriodKeysDerived(r: Record) {
    r.year == YearOf(r.entry) && r.month == MonthOf(r.entry)
  }

  /** The header has all three date columns. */
  predicate HasDateColumns(columns: seq<string>) {
    ENTRADA in columns && INSPECAO in columns && CONCLUSAO in columns
  }

  /** The position in DATE_COLUMNS of the first date column the header lacks, if any. */
  function FirstMissingDateColumn(columns: seq<string>): (r: Option<nat>)
    ensures r.None? <==> HasDateColumns(columns)
    ensures r.Some? ==> r.value < |DATE_COLUMNS| && DATE_COLUMNS[r.value] !in columns
                        && forall j :: 0 <= j < r.value ==> DATE_COLUMNS[j] in columns
  {
    if ENTRADA !in columns then Some(0)
    else if INSPECAO !in columns then Some(1)
    else if CONCLUSAO !in columns then Some(2)
    else None
  }

  /** The record a sheet row becomes, once all three date columns are known to exist. */
  function RowRecord(columns: seq<string>, cells: seq<Cell>, parse: string -> Option<CalendarDate>): (r: Record)
    requires HasDateColumns(columns)
    ensures PeriodKeysDerived(r)
  {
    var entry := ParseCell(CellAt(cells, ColumnIndex(columns, ENTRADA).value), parse);
    Record(entry,
           ParseCell(CellAt(cells, ColumnIndex(columns, INSPECAO).value), parse),
           ParseCell(CellAt(cells, ColumnIndex(columns, CONCLUSAO).value), parse),
           TextAt(columns, cells, CLASSIFICACAO),
           TextAt(columns, cells, TERRITORIO),
           TextAt(columns, cells, COORDENACAO),
           YearOf(entry), MonthOf(entry))
  }

  /** The records the sheet's rows become, in order, under a header `columns` known
      to hold all three date columns. */
  function SheetRecords(columns: seq<string>, rows: seq<seq<Cell>>, parse: string -> Option<CalendarDate>):
    (records: seq<Record>)
    requires HasDateColumns(columns)
    ensures |records| == |rows|
    ensures forall k :: 0 <= k < |records| ==> PeriodKeysDerived(records[k])
  {
    seq(|rows|, k requires 0 <= k < |rows| => RowRecord(columns, rows[k], parse))
  }

  /** Records built row by row are the `SheetRecords` of those rows. */
  lemma RowsAreSheetRecords(columns: seq<string>, rows: seq<seq<Cell>>, parse: string -> Option<CalendarDate>,
                            records: seq<Record>)
    requires HasDateColumns(columns) && |records| == |rows|
    requires forall k :: 0 <= k < |rows| ==> records[k] == RowRecord(columns, rows[k], parse)
    ensures records == SheetRecords(columns, rows, parse)
  {
  }

  /** Zips the three converted date columns with the text columns and adds ANO and MES. */
  function AssembleRows(columns: seq<string>, rows: seq<seq<Cell>>, dates: seq<seq<Option<CalendarDate>>>,
                        parse: string -> Option<CalendarDate>): (r: seq<Record>)
    requires HasDateColumns(columns) && |dates| == 3
    requires dates[0] == ParseColumn(rows, ColumnIndex(columns, ENTRADA).value, parse)
    requires dates[1] == ParseColumn(rows, ColumnIndex(columns, INSPECAO).value, parse)
    requires dates[2] == ParseColumn(rows, ColumnIndex(columns, CONCLUSAO).value, parse)
    ensures |r| == |rows| && forall k :: 0 <= k < |rows| ==> r[k] == RowRecord(columns, rows[k], parse)
  {
    seq(|rows|, k requires 0 <= k < |rows| =>
      Record(dates[0][k], dates[1][k], dates[2][k],
             TextAt(columns, rows[k], CLASSIFICACAO),
             TextAt(columns, rows[k], TERRITORIO),
             TextAt(columns, rows[k], COORDENACAO),
             YearOf(dates[0][k]), MonthOf(dates[0][k])))
  }

  /** Lines 82-83: convert the date columns one after the other; the first one the
      header lacks raises KeyError. On success, `dates[j]` is column DATE_COLUMNS[j] parsed. */
  method ConvertDateColumns(columns: seq<string>, rows: seq<seq<Cell>>, parse: string -> Option<CalendarDate>)
    returns (r: Result<seq<seq<Option<CalendarDate>>>, NormaliseError>)
    ensures r.Err? <==> FirstMissingDateColumn(columns).Some?
    ensures r.Err? ==> r.error == MissingColumn(DATE_COLUMNS[FirstMissingDateColumn(columns).value])
    ensures r.Ok? ==> && |r.value| == 3
                      && r.value[0] == ParseColumn(rows, ColumnIndex(columns, ENTRADA).value, parse)
                      && r.value[1] == ParseColumn(rows, ColumnIndex(columns, INSPECAO).value, parse)
                      && r.value[2] == ParseColumn(rows, ColumnIndex(columns, CONCLUSAO).value, parse)
  {
    assert DATE_COLUMNS[0] == ENTRADA && DATE_COLUMNS[1] == INSPECAO && DATE_COLUMNS[2] == CONCLUSAO;
    var dates: seq<seq<Option<CalendarDate>>> := [];
    for k := 0 to |DATE_COLUMNS|
      invariant |dates| == k
      invariant forall j :: 0 <= j < k ==> DATE_COLUMNS[j] in columns
      invariant forall j :: 0 <= j < k ==>
                  dates[j] == ParseColumn(rows, ColumnIndex(columns, DATE_COLUMNS[j]).value, parse)
    {
      var idx := ColumnIndex(columns, DATE_COLUMNS[k]);
      if idx.None? {
        assert FirstMissingDateColumn(columns) == Some(k);
        return Err(MissingColumn(DATE_COLUMNS[k]));
      }
      dates := dates + [ParseColumn(rows, idx.value, parse)];
    }
    r := Ok(dates);
  }

  /** Lines 79-87: strip the column names, convert the three date columns in turn
      (failing on the first one that is missing), then derive ANO and MES. */
  method Normalise(sheet: Sheet, parse: string -> Option<CalendarDate>)
    returns (r: Result<Table, NormaliseError>)
    ensures r.Err? <==> FirstMissingDateColumn(StripAll(sheet.columns)).Some?
    ensures r.Err? ==> r.error == MissingColumn(DATE_COLUMNS[FirstMissingDateColumn(StripAll(sheet.columns)).value])
    ensures r.Ok? ==> r.value.columns == StripAll(sheet.columns) && |r.value.rows| == |sheet.rows|
    ensures r.Ok? ==> forall k :: 0 <= k < |sheet.rows| ==>
              r.value.rows[k] == RowRecord(r.value.columns, sheet.rows[k], parse)
    ensures r.Ok? ==> forall k :: 0 <= k < |sheet.rows| ==> PeriodKeysDerived(r.value.rows[k])
    ensures r.Ok? ==> r.value == Table(StripAll(sheet.columns), SheetRecords(StripAll(sheet.columns), sheet.rows, parse))
  {
    var columns := StripAll(sheet.columns);
    var converted := ConvertDateColumns(columns, sheet.rows, parse);
    match converted
    case Err(e) =>
      r := Err(e);
    case Ok(dates) =>
      var rows := AssembleRows(columns, sheet.rows, dates, parse);
      RowsAreSheetRecords(columns, sheet.rows, parse, rows);
      r := Ok(Table(columns, rows));
  }
}
