/** The deadline classifier (lines 139-151): each case gets its 30- and 90-day
    deadlines and two flags, REALIZOU_30 (first inspection on time) and
    FINALIZOU_90 (concluded on time). */
module Deadlines {
  import opened Wrappers
  import opened Calendar
  import opened Frames

  const FIRST_DEADLINE_DAYS: nat := 30
  const SECOND_DEADLINE_DAYS: nat := 90

  /** `ENTRADA + timedelta(days=n)`: the date `days` days after entry; NaT plus anything is NaT. */
  function Deadline(entry: Option<CalendarDate>, days: nat): (d: Option<CalendarDate>)
    ensures d.Some? <==> entry.Some?
    ensures d.Some? ==> DayNumber(d.value) == DayNumber(entry.value) + days
  {
    match entry
    case None => None
    case Some(e) =>
      AddDaysNumber(e, days);
      Some(AddDays(e, days))
  }

  /** `date.notna() & (date <= deadline)`: a comparison with NaT on either side is false. */
  predicate NotLater(date: Option<CalendarDate>, deadline: Option<CalendarDate>) {
    date.Some? && deadline.Some? && DayNumber(date.value) <= DayNumber(deadline.value)
  }

  /** A row of `df_tmp`: the record with DEADLINE_30, DEADLINE_90, REALIZOU_30 and FINALIZOU_90. */
  datatype Classified = Classified(
    record: Record,
    deadline30: Option<CalendarDate>,
    deadline90: Option<CalendarDate>,
    realizou30: bool,
    finalizou90: bool)

  /** The two flags of one case: on time means the date is present, the entry date is
      present, and the date is no later than entry plus the allowance (inclusive). */
  function Classify(r: Record): (c: Classified)
    ensures c.record == r
    ensures c.realizou30 <==> && r.firstInspection.Some? && r.entry.Some?
                              && DayNumber(r.firstInspection.value) <= DayNumber(r.entry.value) + FIRST_DEADLINE_DAYS
    ensures c.finalizou90 <==> && r.conclusion.Some? && r.entry.Some?
                               && DayNumber(r.conclusion.value) <= DayNumber(r.entry.value) + SECOND_DEADLINE_DAYS
    ensures r.entry.Some? ==> && c.deadline30 == Some(AddDays(r.entry.value, FIRST_DEADLINE_DAYS))
                              && c.deadline90 == Some(AddDays(r.entry.value, SECOND_DEADLINE_DAYS))
    ensures r.entry.None? ==> c.deadline30.None? && c.deadline90.None? && !c.realizou30 && !c.finalizou90
  {
    var d30 := Deadline(r.entry, FIRST_DEADLINE_DAYS);
    var d90 := Deadline(r.entry, SECOND_DEADLINE_DAYS);
    Classified(r, d30, d90, NotLater(r.firstInspection, d30), NotLater(r.conclusion, d90))
  }

  /** The flag columns added to every row of the filtered table, row by row. */
  function ClassifyAll(rows: seq<Record>): (cs: seq<Classified>)
    ensures |cs| == |rows|
    ensures forall i :: 0 <= i < |rows| ==> cs[i] == Classify(rows[i])
  {
    if rows == [] then [] else [Classify(rows[0])] + ClassifyAll(rows[1..])
  }

  /** Classifying adds columns and neither drops nor invents rows. */
  lemma ClassifyAllRecords(rows: seq<Record>)
    ensures forall c :: c in ClassifyAll(rows) ==> c.record in rows
  {
    forall c | c in ClassifyAll(rows) ensures c.record in rows {
      var i :| 0 <= i < |rows| && ClassifyAll(rows)[i] == c;
    }
  }

  /** The first deadline is inclusive: an inspection exactly 30 days after entry is on
      time, one 31 days after is late, whatever the entry date. */
  lemma FirstDeadlineInclusive(r: Record, e: CalendarDate)
    requires r.entry == Some(e)
    ensures r.firstInspection == Some(AddDays(e, 30)) ==> Classify(r).realizou30
    ensures r.firstInspection == Some(AddDays(e, 31)) ==> !Classify(r).realizou30
  {
    AddDaysNumber(e, 30);
    AddDaysNumber(e, 31);
  }

  /** The second deadline is inclusive: concluding 90 days after entry is on time,
      91 days after is late. */
  lemma SecondDeadlineInclusive(r: Record, e: CalendarDate)
    requires r.entry == Some(e)
    ensures r.conclusion == Some(AddDays(e, 90)) ==> Classify(r).finalizou90
    ensures r.conclusion == Some(AddDays(e, 91)) ==> !Classify(r).finalizou90
  {
    AddDaysNumber(e, 90);
    AddDaysNumber(e, 91);
  }

  /** A case that entered on 1 January 2024: inspected on 31 January it met the first
      deadline, inspected on 1 February it did not. */
  lemma JanuaryScenario(r: Record)
    requires r.entry == Some(Date(2024, 1, 1))
    ensures r.firstInspection == Some(Date(2024, 1, 31)) ==> Classify(r).realizou30
    ensures r.firstInspection == Some(Date(2024, 2, 1)) ==> !Classify(r).realizou30
  {
  }
}
