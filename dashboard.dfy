/** One pass of the script from the loaded sheet to what it displays: normalise,
    filter, classify, summarise, and for the administrator the group sums and the
    late tables (a standard user's session stops after the KPIs, line 175). */
module Dashboard {
  import opened Wrappers
  import opened Calendar
  import opened Frames
  import opened Filters
  import opened Selection
  import opened Deadlines
  import opened Indicators

  /** What only the administrator sees: the flag sums per coordination and per territory
      (each only when that column exists) and the two late tables. */
  datatype Detail = Detail(
    byCoordination: Option<map<string, FlagTotals>>,
    byTerritory: Option<map<string, FlagTotals>>,
    lateFirst: seq<Classified>,
    lateSecond: seq<Classified>)

  datatype Report = Report(classified: seq<Classified>, kpis: Kpis, detail: Option<Detail>)

  /** The chart data of lines 190-200: the group sums, when the column exists. */
  function GroupSums(columns: seq<string>, cs: seq<Classified>, d: Dimension): (r: Option<map<string, FlagTotals>>)
    ensures r.Some? <==> ColumnOf(d) in columns
  {
    if ColumnOf(d) in columns then Some(GroupTotals(cs, d)) else None
  }

  /** Lines 76-209 with the widgets' choices given as `criteria` and the login's outcome as `isAdmin`. */
  method Run(sheet: Sheet, parse: string -> Option<CalendarDate>, criteria: Criteria, isAdmin: bool)
    returns (r: Result<Report, NormaliseError>)
    ensures r.Err? <==> FirstMissingDateColumn(StripAll(sheet.columns)).Some?
    ensures r.Err? ==> r.error == MissingColumn(DATE_COLUMNS[FirstMissingDateColumn(StripAll(sheet.columns)).value])
    ensures r.Ok? ==>
              r.value.classified ==
              ClassifyAll(Where(SheetRecords(StripAll(sheet.columns), sheet.rows, parse), x => Admitted(StripAll(sheet.columns), criteria, isAdmin, x)))
    ensures r.Ok? ==> r.value.kpis == Summarise(r.value.classified)
    ensures r.Ok? ==> forall c :: c in r.value.classified ==>
              Admitted(StripAll(sheet.columns), criteria, isAdmin, c.record) && PeriodKeysDerived(c.record)
    ensures r.Ok? ==> (r.value.detail.Some? <==> isAdmin)
    ensures r.Ok? && r.value.detail.Some? ==>
              var cs, detail := r.value.classified, r.value.detail.value;
              && detail.lateFirst == LateFirst(cs) && detail.lateSecond == LateSecond(cs)
              && detail.byCoordination == GroupSums(StripAll(sheet.columns), cs, Coordination)
              && detail.byTerritory == GroupSums(StripAll(sheet.columns), cs, Territory)
  {
    var normalised := Normalise(sheet, parse);
    if normalised.Err? {
      return Err(normalised.error);
    }
    var table := normalised.value;
    var filtered := ApplyFilters(table, criteria, isAdmin);
    WhereSameMask(table.rows, x => Admitted(table.columns, criteria, isAdmin, x),
                  x => Admitted(StripAll(sheet.columns), criteria, isAdmin, x));
    var cs := ClassifyAll(filtered);
    ClassifyAllRecords(filtered);
    assert forall x :: x in table.rows ==> PeriodKeysDerived(x);
    var kpis := Summarise(cs);
    var detail := None;
    if isAdmin {
      detail := Some(Detail(GroupSums(table.columns, cs, Coordination), GroupSums(table.columns, cs, Territory),
                            LateFirst(cs), LateSecond(cs)));
    }
    r := Ok(Report(cs, kpis, detail));
  }
}
