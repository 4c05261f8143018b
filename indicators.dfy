/** What the dashboard reports about the classified cases: the KPI totals and
    percentages (lines 154-159), the flag sums per coordination and per territory
    (lines 192, 198), and the two tables of late cases (lines 208-209). */
module Indicators {
  import opened Wrappers
  import opened Frames
  import opened Filters
  import opened Selection
  import opened Deadlines

  /** The two compliance flags. */
  datatype Indicator = Within30 | Within90

  function Flag(c: Classified, i: Indicator): bool {
    match i
    case Within30 => c.realizou30
    case Within90 => c.finalizou90
  }

  /** `df_tmp[flag].sum()`: how many rows have the flag set. */
  function Count(cs: seq<Classified>, i: Indicator): (n: nat)
    ensures n <= |cs|
  {
    if cs == [] then 0 else (if Flag(cs[0], i) then 1 else 0) + Count(cs[1..], i)
  }

  /** Counting is additive over concatenation. */
  lemma {:induction false} CountAppend(a: seq<Classified>, b: seq<Classified>, i: Indicator)
    ensures Count(a + b, i) == Count(a, i) + Count(b, i)
  {
    if a == [] {
      assert a + b == b;
    } else {
      assert (a + b)[0] == a[0] && (a + b)[1..] == a[1..] + b;
      CountAppend(a[1..], b, i);
    }
  }

  /** The sum of a flag is the number of rows a mask on that flag selects. */
  lemma {:induction false} CountIsSelection(cs: seq<Classified>, i: Indicator, mask: Classified -> bool)
    requires forall c :: mask(c) == Flag(c, i)
    ensures Count(cs, i) == |Where(cs, mask)|
  {
    if cs != [] {
      CountIsSelection(cs[1..], i, mask);
    }
  }

  /** `round((count / total) * 100, 2) if total else 0`, without the rounding. */
  function Percentage(count: nat, total: nat): (p: real)
    ensures total == 0 ==> p == 0.0
    ensures total > 0 ==> p * (total as real) == (count as real) * 100.0
    ensures count <= total ==> 0.0 <= p <= 100.0
  {
    if total == 0 then 0.0 else (count as real) / (total as real) * 100.0
  }

  /** The period's KPIs: entries, on-time counts and on-time percentages. */
  datatype Kpis = Kpis(total: nat, realizou30: nat, finalizou90: nat, pct30: real, pct90: real)

  function Summarise(cs: seq<Classified>): (k: Kpis)
    ensures k.total == |cs|
    ensures k.realizou30 == Count(cs, Within30) && k.finalizou90 == Count(cs, Within90)
    ensures k.realizou30 <= k.total && k.finalizou90 <= k.total
    ensures k.pct30 == Percentage(k.realizou30, k.total) && k.pct90 == Percentage(k.finalizou90, k.total)
    ensures 0.0 <= k.pct30 <= 100.0 && 0.0 <= k.pct90 <= 100.0
  {
    var total := |cs|;
    var r30 := Count(cs, Within30);
    var r90 := Count(cs, Within90);
    Kpis(total, r30, r90, Percentage(r30, total), Percentage(r90, total))
  }

  predicate OnTime30(c: Classified) { c.realizou30 }
  predicate Late30(c: Classified) { !c.realizou30 }
  predicate OnTime90(c: Classified) { c.finalizou90 }
  predicate Late90(c: Classified) { !c.finalizou90 }

  /** `df_tmp[df_tmp["REALIZOU_30"] == False]`. */
  function LateFirst(cs: seq<Classified>): (late: seq<Classified>)
    ensures forall c :: c in late <==> c in cs && !c.realizou30
  {
    Where(cs, Late30)
  }

  /** `df_tmp[df_tmp["FINALIZOU_90"] == False]`. */
  function LateSecond(cs: seq<Classified>): (late: seq<Classified>)
    ensures forall c :: c in late <==> c in cs && !c.finalizou90
  {
    Where(cs, Late90)
  }

  /** The first late table holds exactly the rows whose REALIZOU_30 is false, in input
      order, and with the on-time count it accounts for every entry. */
  lemma LateFirstPartition(cs: seq<Classified>)
    ensures forall c :: c in LateFirst(cs) <==> c in cs && !c.realizou30
    ensures IsSubsequence(LateFirst(cs), cs)
    ensures Summarise(cs).realizou30 + |LateFirst(cs)| == Summarise(cs).total
  {
    WhereIsSubsequence(cs, Late30);
    WhereSplits(cs, OnTime30, Late30);
    CountIsSelection(cs, Within30, OnTime30);
  }

  /** The second late table holds exactly the rows whose FINALIZOU_90 is false, in
      input order, and with the on-time count it accounts for every entry. */
  lemma LateSecondPartition(cs: seq<Classified>)
    ensures forall c :: c in LateSecond(cs) <==> c in cs && !c.finalizou90
    ensures IsSubsequence(LateSecond(cs), cs)
    ensures Summarise(cs).finalizou90 + |LateSecond(cs)| == Summarise(cs).total
  {
    WhereIsSubsequence(cs, Late90);
    WhereSplits(cs, OnTime90, Late90);
    CountIsSelection(cs, Within90, OnTime90);
  }

  /** The late tables do not constrain each other: the cases late on both counts are
      the same whichever table they are picked from, and a case is in either, in both,
      or in neither, as its own two flags say. */
  lemma LateSetsIndependent(cs: seq<Classified>)
    ensures Where(LateFirst(cs), Late90) == Where(LateSecond(cs), Late30)
    ensures forall c :: c in cs ==> ((c in LateFirst(cs) && c in LateSecond(cs)) <==> Late30(c) && Late90(c))
  {
    WhereCommutes(cs, Late30, Late90);
  }

  /** The flag totals of one group of a `groupby(...).sum()`. */
  datatype FlagTotals = FlagTotals(realizou30: nat, finalizou90: nat)

  /** `df_tmp.groupby(column)[["REALIZOU_30", "FINALIZOU_90"]].sum()`, accumulated row by
      row: rows whose key is NaN belong to no group. */
  function GroupTotals(cs: seq<Classified>, d: Dimension): map<string, FlagTotals>
    decreases |cs|
  {
    if cs == [] then map[]
    else
      var prev := GroupTotals(cs[..|cs| - 1], d);
      var c := cs[|cs| - 1];
      match ValueOf(c.record, d)
      case None => prev
      case Some(key) =>
        var before := if key in prev then prev[key] else FlagTotals(0, 0);
        prev[key := FlagTotals(before.realizou30 + (if c.realizou30 then 1 else 0),
                               before.finalizou90 + (if c.finalizou90 then 1 else 0))]
  }

  /** The mask selecting the rows whose `d` value is `key`. */
  function KeyMask(d: Dimension, key: string): Classified -> bool {
    (c: Classified) => ValueOf(c.record, d) == Some(key)
  }

  /** The rows of group `key`. */
  function Group(cs: seq<Classified>, d: Dimension, key: string): seq<Classified> {
    Where(cs, KeyMask(d, key))
  }

  /** The group keys: every non-missing value of the column. Over classified rows these
      are the values `Filters.Observed` gives for their records (`GroupKeysAreObserved`). */
  function GroupKeys(cs: seq<Classified>, d: Dimension): set<string> {
    set c | c in cs && ValueOf(c.record, d).Some? :: ValueOf(c.record, d).value
  }

  lemma GroupKeysAppend(init: seq<Classified>, c: Classified, d: Dimension)
    ensures GroupKeys(init + [c], d) ==
            GroupKeys(init, d) + (if ValueOf(c.record, d).Some? then {ValueOf(c.record, d).value} else {})
  {
    assert forall x :: x in init + [c] <==> x in init || x == c;
  }

  /** The chart's groups are the observed values of the filtered records: the keys of
      the classified rows are exactly the non-missing values `Observed` collects. */
  lemma GroupKeysAreObserved(rows: seq<Record>, d: Dimension)
    ensures GroupKeys(ClassifyAll(rows), d) == Observed(rows, d)
  {
    var cs := ClassifyAll(rows);
    forall v | v in GroupKeys(cs, d) ensures v in Observed(rows, d) {
      var c :| c in cs && ValueOf(c.record, d) == Some(v);
      ClassifyAllRecords(rows);
    }
    forall v | v in Observed(rows, d) ensures v in GroupKeys(cs, d) {
      var r :| r in rows && ValueOf(r, d) == Some(v);
      var i :| 0 <= i < |rows| && rows[i] == r;
      assert cs[i].record == r && cs[i] in cs;
    }
  }

  /** A key no row has has an empty group. */
  lemma GroupOfAbsentKey(cs: seq<Classified>, d: Dimension, key: string)
    requires key !in GroupKeys(cs, d)
    ensures Group(cs, d, key) == []
  {
    forall x | x in cs ensures !KeyMask(d, key)(x) {
      if ValueOf(x.record, d).Some? {
        assert ValueOf(x.record, d).value in GroupKeys(cs, d);
      }
    }
    WhereNone(cs, KeyMask(d, key));
  }

  /** Appending a row adds it to its own group and to no other. */
  lemma GroupAppend(init: seq<Classified>, c: Classified, d: Dimension, key: string)
    ensures Count(Group(init + [c], d, key), Within30) ==
            Count(Group(init, d, key), Within30) + (if ValueOf(c.record, d) == Some(key) && c.realizou30 then 1 else 0)
    ensures Count(Group(init + [c], d, key), Within90) ==
            Count(Group(init, d, key), Within90) + (if ValueOf(c.record, d) == Some(key) && c.finalizou90 then 1 else 0)
  {
    WhereAppend(init, [c], KeyMask(d, key));
    CountAppend(Group(init, d, key), Where([c], KeyMask(d, key)), Within30);
    CountAppend(Group(init, d, key), Where([c], KeyMask(d, key)), Within90);
  }

  /** The accumulated sums are the per-group counts: there is one group per observed
      value, and each holds the number of on-time rows having that value. */
  lemma {:induction false} GroupTotalsAreGroupCounts(cs: seq<Classified>, d: Dimension)
    ensures GroupTotals(cs, d).Keys == GroupKeys(cs, d)
    ensures forall key :: key in GroupTotals(cs, d) ==>
              GroupTotals(cs, d)[key] == FlagTotals(Count(Group(cs, d, key), Within30),
                                                   Count(Group(cs, d, key), Within90))
    decreases |cs|
  {
    if cs != [] {
      var init, c := cs[..|cs| - 1], cs[|cs| - 1];
      assert cs == init + [c];
      GroupTotalsAreGroupCounts(init, d);
      GroupKeysAppend(init, c, d);
      var prev := GroupTotals(init, d);
      forall key | key in GroupTotals(cs, d)
        ensures GroupTotals(cs, d)[key] == FlagTotals(Count(Group(cs, d, key), Within30),
                                                     Count(Group(cs, d, key), Within90))
      {
        GroupAppend(init, c, d, key);
        if key !in prev {
          GroupOfAbsentKey(init, d, key);
        }
      }
    }
  }
}
