/** The sidebar filters (lines 96-130): a period, then membership in the selected
    classifications, and for the administrator territories and coordinations. */
module Filters {
  import opened Wrappers
  import opened Calendar
  import opened Frames
  import opened Selection

  /** "Ano/Mês": one year and one month; "Intervalo de datas": an inclusive date range. */
  datatype Period = YearMonth(year: int, month: int) | DateRange(start: CalendarDate, end: CalendarDate)

  /** The period mask. NaN never equals a selected year or month, and NaT compares false. */
  predicate InPeriod(p: Period, r: Record) {
    match p
    case YearMonth(y, m) => r.year == Some(y) && r.month == Some(m)
    case DateRange(s, e) =>
      r.entry.Some? && DayNumber(s) <= DayNumber(r.entry.value) && DayNumber(r.entry.value) <= DayNumber(e)
  }

  /** The three categorical columns a multiselect can restrict. */
  datatype Dimension = Classification | Territory | Coordination

  function ColumnOf(d: Dimension): string {
    match d
    case Classification => CLASSIFICACAO
    case Territory => TERRITORIO
    case Coordination => COORDENACAO
  }

  function ValueOf(r: Record, d: Dimension): Option<string> {
    match d
    case Classification => r.classification
    case Territory => r.territory
    case Coordination => r.coordination
  }

  /** `series.isin(selection)` for one row: NaN is never among the (non-missing) options. */
  predicate IsIn(d: Dimension, selection: set<string>, r: Record) {
    ValueOf(r, d).Some? && ValueOf(r, d).value in selection
  }

  /** What the user chose in the sidebar. */
  datatype Criteria = Criteria(
    period: Period,
    classifications: set<string>,
    territories: set<string>,
    coordinations: set<string>)

  function SelectionOf(c: Criteria, d: Dimension): set<string> {
    match d
    case Classification => c.classifications
    case Territory => c.territories
    case Coordination => c.coordinations
  }

  /** A membership filter runs when its column exists; territory and coordination only for the administrator. */
  predicate Applies(columns: seq<string>, isAdmin: bool, d: Dimension) {
    ColumnOf(d) in columns && (d.Classification? || isAdmin)
  }

  /** The membership condition of one dimension, true when that filter does not run. */
  predicate Passes(columns: seq<string>, c: Criteria, isAdmin: bool, d: Dimension, r: Record) {
    Applies(columns, isAdmin, d) ==> IsIn(d, SelectionOf(c, d), r)
  }

  /** The whole filter as one condition: the period and every membership filter that runs. */
  predicate Admitted(columns: seq<string>, c: Criteria, isAdmin: bool, r: Record) {
    && InPeriod(c.period, r)
    && Passes(columns, c, isAdmin, Classification, r)
    && Passes(columns, c, isAdmin, Territory, r)
    && Passes(columns, c, isAdmin, Coordination, r)
  }

  /** The condition `df_filtrado` meets once the filters up to and including `d` have run. */
  predicate UpTo(columns: seq<string>, c: Criteria, isAdmin: bool, d: Dimension, r: Record) {
    && InPeriod(c.period, r)
    && Passes(columns, c, isAdmin, Classification, r)
    && (d.Classification? || Passes(columns, c, isAdmin, Territory, r))
    && (d.Coordination? ==> Passes(columns, c, isAdmin, Coordination, r))
  }

  /** Lines 96-130: `df_filtrado` narrowed step by step, period first, then each
      membership filter that runs. The result is the rows meeting the single
      combined condition, in their original order. */
  method ApplyFilters(t: Table, c: Criteria, isAdmin: bool) returns (filtered: seq<Record>)
    ensures filtered == Where(t.rows, r => Admitted(t.columns, c, isAdmin, r))
  {
    filtered := Where(t.rows, r => InPeriod(c.period, r));
    if Applies(t.columns, isAdmin, Classification) {
      Narrow(t.rows, r => InPeriod(c.period, r), r => IsIn(Classification, c.classifications, r),
             r => UpTo(t.columns, c, isAdmin, Classification, r));
      filtered := Where(filtered, r => IsIn(Classification, c.classifications, r));
    } else {
      WhereSameMask(t.rows, r => InPeriod(c.period, r), r => UpTo(t.columns, c, isAdmin, Classification, r));
    }
    if Applies(t.columns, isAdmin, Territory) {
      Narrow(t.rows, r => UpTo(t.columns, c, isAdmin, Classification, r), r => IsIn(Territory, c.territories, r),
             r => UpTo(t.columns, c, isAdmin, Territory, r));
      filtered := Where(filtered, r => IsIn(Territory, c.territories, r));
    } else {
      WhereSameMask(t.rows, r => UpTo(t.columns, c, isAdmin, Classification, r),
                    r => UpTo(t.columns, c, isAdmin, Territory, r));
    }
    if Applies(t.columns, isAdmin, Coordination) {
      Narrow(t.rows, r => UpTo(t.columns, c, isAdmin, Territory, r), r => IsIn(Coordination, c.coordinations, r),
             r => UpTo(t.columns, c, isAdmin, Coordination, r));
      filtered := Where(filtered, r => IsIn(Coordination, c.coordinations, r));
    } else {
      WhereSameMask(t.rows, r => UpTo(t.columns, c, isAdmin, Territory, r),
                    r => UpTo(t.columns, c, isAdmin, Coordination, r));
    }
    WhereSameMask(t.rows, r => UpTo(t.columns, c, isAdmin, Coordination, r),
                  r => Admitted(t.columns, c, isAdmin, r));
  }

  /** Year/month mode on normalised records keeps exactly the rows whose entry date
      lies in that year and month; a row without an entry date is never kept. */
  lemma YearMonthSelects(rows: seq<Record>, y: int, m: int)
    requires forall r :: r in rows ==> PeriodKeysDerived(r)
    ensures forall r :: r in Where(rows, x => InPeriod(YearMonth(y, m), x)) <==>
              r in rows && r.entry.Some? && r.entry.value.year == y && r.entry.value.month == m
  {
  }

  /** Date-range mode keeps exactly the rows whose entry date lies, in calendar order,
      between the two ends inclusive; a row without an entry date is never kept. */
  lemma DateRangeSelects(rows: seq<Record>, s: CalendarDate, e: CalendarDate)
    ensures forall r :: r in Where(rows, x => InPeriod(DateRange(s, e), x)) <==>
              r in rows && r.entry.Some? && !Before(r.entry.value, s) && !Before(e, r.entry.value)
  {
    forall r | r in rows && r.entry.Some?
      ensures InPeriod(DateRange(s, e), r) <==> !Before(r.entry.value, s) && !Before(e, r.entry.value)
    {
      DayNumberOrder(r.entry.value, s);
      DayNumberOrder(e, r.entry.value);
    }
  }

  /** The values a multiselect offers and preselects: the non-missing values of the column. */
  function Observed(rows: seq<Record>, d: Dimension): (values: set<string>)
    ensures forall r :: r in rows && ValueOf(r, d).Some? ==> ValueOf(r, d).value in values
    ensures forall v :: v in values ==> exists r :: r in rows && ValueOf(r, d) == Some(v)
  {
    set r | r in rows && ValueOf(r, d).Some? :: ValueOf(r, d).value
  }

  /** With the default selection (everything observed in the whole table), a membership
      filter on rows drawn from that table removes exactly the rows where the value is missing. */
  lemma DefaultSelectionDropsMissing(all: seq<Record>, s: seq<Record>, d: Dimension)
    requires forall r :: r in s ==> r in all
    ensures Where(s, r => IsIn(d, Observed(all, d), r)) == Where(s, r => ValueOf(r, d).Some?)
  {
    WhereSameMask(s, r => IsIn(d, Observed(all, d), r), r => ValueOf(r, d).Some?);
  }

  /** Emptying a multiselect whose filter runs leaves no rows. */
  lemma EmptySelectionKeepsNothing(t: Table, c: Criteria, isAdmin: bool, d: Dimension)
    requires Applies(t.columns, isAdmin, d) && SelectionOf(c, d) == {}
    ensures Where(t.rows, r => Admitted(t.columns, c, isAdmin, r)) == []
  {
    var w := Where(t.rows, r => Admitted(t.columns, c, isAdmin, r));
    if w != [] {
      assert w[0] in w;
    }
  }

  /** Filtering an already filtered table again with the same criteria changes nothing. */
  lemma FiltersIdempotent(t: Table, c: Criteria, isAdmin: bool)
    ensures var once := Where(t.rows, r => Admitted(t.columns, c, isAdmin, r));
            Where(once, r => Admitted(t.columns, c, isAdmin, r)) == once
  {
    WhereIdempotent(t.rows, r => Admitted(t.columns, c, isAdmin, r));
  }
}
