/**
 * The state-by-month aggregation of the upload script: rows are grouped by
 * (state, `YYYY-MM` of their date), `cases` are summed over every outcome
 * type in a group, groups come out sorted by key, rows without a state drop
 * out, and each group gets its year, month, month name and the aggregation
 * time.
 */
module Aggregation {
  import opened Base
  import opened Calendar
  import opened Order

  /** A cleaned row after its `date` column has been parsed, reduced to the columns the aggregation reads. */
  datatype DatedRow = DatedRow(state: Option<string>, date: TimestampDate, cases: int)

  datatype GroupKey = GroupKey(state: string, yearMonth: string)

  /** One row of the aggregate, its fields in the order of its columns. */
  datatype AggRow = AggRow(
    state: string,
    yearMonth: string,
    cases: int,
    year: int,
    month: int,
    monthName: string,
    lastUpdated: string)

  /** `pd.to_datetime` raises on a month bucket whose first day is outside the timestamp range. */
  datatype AggError = MonthOutOfBounds(yearMonth: string)

  function KeyOf(row: DatedRow): Option<GroupKey>
  {
    if row.state.Some? then Some(GroupKey(row.state.value, YearMonthOf(row.date))) else None
  }

  predicate InGroup(row: DatedRow, k: GroupKey)
  {
    KeyOf(row) == Some(k)
  }

  function AggKey(r: AggRow): GroupKey
  {
    GroupKey(r.state, r.yearMonth)
  }

  // ---------------------------------------------------------------------
  // Sorted group keys
  // ---------------------------------------------------------------------

  /** The order `groupby` sorts its keys in: by state, then by month bucket. */
  predicate KeyLess(a: GroupKey, b: GroupKey)
  {
    StrLess(a.state, b.state) || (a.state == b.state && StrLess(a.yearMonth, b.yearMonth))
  }

  lemma KeyLessIsStrictTotalOrder()
    ensures forall a: GroupKey :: !KeyLess(a, a)
    ensures forall a: GroupKey, b: GroupKey, c: GroupKey :: KeyLess(a, b) && KeyLess(b, c) ==> KeyLess(a, c)
    ensures forall a: GroupKey, b: GroupKey :: a == b || KeyLess(a, b) || KeyLess(b, a)
  {
    StrLessIsStrictTotalOrder();
  }

  predicate StrictlySorted(ks: seq<GroupKey>)
  {
    forall i, j :: 0 <= i < j < |ks| ==> KeyLess(ks[i], ks[j])
  }

  /** Add a key to a sorted key list, unless it is already there. */
  function Insert(ks: seq<GroupKey>, k: GroupKey): (r: seq<GroupKey>)
    requires StrictlySorted(ks)
    ensures StrictlySorted(r)
    ensures forall x :: x in r <==> x in ks || x == k
    decreases |ks|
  {
    KeyLessIsStrictTotalOrder();
    if |ks| == 0 then [k]
    else if k == ks[0] then ks
    else if KeyLess(k, ks[0]) then [k] + ks
    else
      assert forall x :: x in ks[1..] ==> KeyLess(ks[0], x);
      [ks[0]] + Insert(ks[1..], k)
  }

  /** The distinct keys of the rows that have a state, sorted. */
  function GroupKeys(rows: seq<DatedRow>): (ks: seq<GroupKey>)
    ensures StrictlySorted(ks)
    ensures forall k :: k in ks <==> exists i :: 0 <= i < |rows| && InGroup(rows[i], k)
    decreases |rows|
  {
    if |rows| == 0 then []
    else
      var ks := GroupKeys(rows[1..]);
      assert forall i :: 1 <= i < |rows| ==> rows[1..][i - 1] == rows[i];
      match KeyOf(rows[0])
      case None => ks
      case Some(k) => Insert(ks, k)
  }

  // ---------------------------------------------------------------------
  // Sums
  // ---------------------------------------------------------------------

  /** The `cases` of every row of group `k`, whatever its outcome type. */
  function GroupSum(rows: seq<DatedRow>, k: GroupKey): int
    decreases |rows|
  {
    if |rows| == 0 then 0
    else (if InGroup(rows[0], k) then rows[0].cases else 0) + GroupSum(rows[1..], k)
  }

  /** The `cases` of every row that has a state. */
  function PresentTotal(rows: seq<DatedRow>): int
    decreases |rows|
  {
    if |rows| == 0 then 0
    else (if rows[0].state.Some? then rows[0].cases else 0) + PresentTotal(rows[1..])
  }

  function TotalCases(agg: seq<AggRow>): int
    decreases |agg|
  {
    if |agg| == 0 then 0 else agg[0].cases + TotalCases(agg[1..])
  }

  // ---------------------------------------------------------------------
  // The aggregation
  // ---------------------------------------------------------------------

  /** The first month bucket among the keys that cannot be read back as a timestamp. */
  function FirstBadMonth(ks: seq<GroupKey>): (r: Option<string>)
    ensures r.None? <==> forall j :: 0 <= j < |ks| ==> ParseYearMonth(ks[j].yearMonth).Some?
    ensures r.Some? ==> exists j :: 0 <= j < |ks| && ks[j].yearMonth == r.value && ParseYearMonth(r.value).None?
    decreases |ks|
  {
    if |ks| == 0 then None
    else if ParseYearMonth(ks[0].yearMonth).None? then Some(ks[0].yearMonth)
    else
      var r := FirstBadMonth(ks[1..]);
      assert forall j :: 1 <= j < |ks| ==> ks[1..][j - 1] == ks[j];
      r
  }

  /** One aggregate row: the group's key and sum, the calendar columns read back from the bucket, and the run time. */
  function AggRowOf(k: GroupKey, cases: int, now: string): AggRow
    requires ParseYearMonth(k.yearMonth).Some?
  {
    var (year, month) := ParseYearMonth(k.yearMonth).value;
    AggRow(k.state, k.yearMonth, cases, year, month, MonthName(month), now)
  }

  function AggKeys(agg: seq<AggRow>): (ks: seq<GroupKey>)
    ensures |ks| == |agg|
  {
    seq(|agg|, j requires 0 <= j < |agg| => AggKey(agg[j]))
  }

  /** The grouped, summed and calendar-annotated table, or the error `pd.to_datetime` raises. */
  function Aggregate(rows: seq<DatedRow>, now: string): (res: Result<seq<AggRow>, AggError>)
    ensures res.Ok? ==> StrictlySorted(AggKeys(res.value))
    ensures res.Ok? ==> forall k :: k in AggKeys(res.value) <==> exists i :: 0 <= i < |rows| && InGroup(rows[i], k)
    ensures res.Ok? ==> forall j :: 0 <= j < |res.value| ==> res.value[j].cases == GroupSum(rows, AggKey(res.value[j]))
    ensures res.Ok? ==> forall j :: 0 <= j < |res.value| ==> res.value[j].lastUpdated == now
  {
    var ks := GroupKeys(rows);
    match FirstBadMonth(ks)
    case Some(ym) => Err(MonthOutOfBounds(ym))
    case None =>
      var agg := seq(|ks|, j requires 0 <= j < |ks| => AggRowOf(ks[j], GroupSum(rows, ks[j]), now));
      assert AggKeys(agg) == ks;
      Ok(agg)
  }

  // ---------------------------------------------------------------------
  // Properties
  // ---------------------------------------------------------------------

  /** The aggregation fails exactly when a row with a state is dated in September 1677, whose first day pandas cannot represent. */
  lemma AggregateFailsOnlyBeforeTimestampRange(rows: seq<DatedRow>, now: string)
    ensures Aggregate(rows, now).Err? <==>
      exists i :: 0 <= i < |rows| && rows[i].state.Some? && rows[i].date.year == 1677 && rows[i].date.month == 9
  {
    var ks := GroupKeys(rows);
    forall i | 0 <= i < |rows| && rows[i].state.Some?
      ensures KeyOf(rows[i]).value in ks
      ensures ParseYearMonth(KeyOf(rows[i]).value.yearMonth).None? <==> (rows[i].date.year == 1677 && rows[i].date.month == 9)
    {
      var d := rows[i].date;
      assert InGroup(rows[i], KeyOf(rows[i]).value);
      ParseYearMonthText(d.year, d.month);
      MonthStartRepresentable(d);
    }
    forall j | 0 <= j < |ks|
      ensures ParseYearMonth(ks[j].yearMonth).None? ==>
        exists i :: 0 <= i < |rows| && rows[i].state.Some? && rows[i].date.year == 1677 && rows[i].date.month == 9
    {
      assert ks[j] in ks;
      var i :| 0 <= i < |rows| && InGroup(rows[i], ks[j]);
    }
  }

  /** Every aggregate row's year and month are those of the dates in its group, its month lies in 1..12 and its month name is that month's English name. */
  lemma AggregateCalendarColumns(rows: seq<DatedRow>, now: string)
    requires Aggregate(rows, now).Ok?
    ensures forall j :: 0 <= j < |Aggregate(rows, now).value| ==>
      var r := Aggregate(rows, now).value[j];
      && 1 <= r.month <= 12
      && r.monthName == MonthNames[r.month - 1]
      && forall i :: 0 <= i < |rows| && InGroup(rows[i], AggKey(r)) ==>
           rows[i].date.year == r.year && rows[i].date.month == r.month
  {
    var agg := Aggregate(rows, now).value;
    var ks := GroupKeys(rows);
    forall j, i | 0 <= j < |agg| && 0 <= i < |rows| && InGroup(rows[i], AggKey(agg[j]))
      ensures rows[i].date.year == agg[j].year && rows[i].date.month == agg[j].month
    {
      var d := rows[i].date;
      ParseYearMonthText(d.year, d.month);
    }
  }

  /** Rows that all fall in one group aggregate to a single row holding that group's sum. */
  lemma SingleGroup(rows: seq<DatedRow>, now: string, k: GroupKey)
    requires |rows| > 0 && forall i :: 0 <= i < |rows| ==> InGroup(rows[i], k)
    requires Aggregate(rows, now).Ok?
    ensures |Aggregate(rows, now).value| == 1
    ensures AggKey(Aggregate(rows, now).value[0]) == k
    ensures Aggregate(rows, now).value[0].cases == GroupSum(rows, k)
  {
    var agg := Aggregate(rows, now).value;
    var ks := AggKeys(agg);
    assert InGroup(rows[0], k);
    assert k in ks;
    forall j | 0 <= j < |ks|
      ensures ks[j] == k
    {
      assert ks[j] in ks;
    }
    assert ks[0] == AggKey(agg[0]);
    if |ks| > 1 {
      assert KeyLess(ks[0], ks[1]);
      KeyLessIsStrictTotalOrder();
    }
  }

  lemma SortedDistinct(ks: seq<GroupKey>)
    requires StrictlySorted(ks)
    ensures forall i, j :: 0 <= i < j < |ks| ==> ks[i] != ks[j]
  {
    KeyLessIsStrictTotalOrder();
  }

  function SumOverKeys(ks: seq<GroupKey>, rows: seq<DatedRow>): int
    decreases |ks|
  {
    if |ks| == 0 then 0 else GroupSum(rows, ks[0]) + SumOverKeys(ks[1..], rows)
  }

  /** Removing the first row from every group sum removes its cases once, if its key is among the distinct keys. */
  lemma {:induction false} SumOverKeysStep(ks: seq<GroupKey>, rows: seq<DatedRow>)
    requires |rows| > 0
    requires forall i, j :: 0 <= i < j < |ks| ==> ks[i] != ks[j]
    ensures SumOverKeys(ks, rows) ==
      SumOverKeys(ks, rows[1..]) + (if KeyOf(rows[0]).Some? && KeyOf(rows[0]).value in ks then rows[0].cases else 0)
    decreases |ks|
  {
    if |ks| > 0 {
      SumOverKeysStep(ks[1..], rows);
      assert ks == [ks[0]] + ks[1..];
    }
  }

  /** Summing the group sums of distinct keys that cover every row with a state gives the total of those rows. */
  lemma {:induction false} SumOverCoveringKeys(ks: seq<GroupKey>, rows: seq<DatedRow>)
    requires forall i, j :: 0 <= i < j < |ks| ==> ks[i] != ks[j]
    requires forall i :: 0 <= i < |rows| && rows[i].state.Some? ==> KeyOf(rows[i]).value in ks
    ensures SumOverKeys(ks, rows) == PresentTotal(rows)
    decreases |rows|
  {
    if |rows| == 0 {
      SumOverNoRows(ks, rows);
    } else {
      SumOverKeysStep(ks, rows);
      assert forall i :: 1 <= i < |rows| ==> rows[1..][i - 1] == rows[i];
      SumOverCoveringKeys(ks, rows[1..]);
    }
  }

  lemma {:induction false} SumOverNoRows(ks: seq<GroupKey>, rows: seq<DatedRow>)
    requires |rows| == 0
    ensures SumOverKeys(ks, rows) == 0
    decreases |ks|
  {
    if |ks| > 0 {
      SumOverNoRows(ks[1..], rows);
    }
  }

  lemma {:induction false} TotalOfGroupRows(agg: seq<AggRow>, ks: seq<GroupKey>, rows: seq<DatedRow>)
    requires |agg| == |ks|
    requires forall j :: 0 <= j < |agg| ==> agg[j].cases == GroupSum(rows, ks[j])
    ensures TotalCases(agg) == SumOverKeys(ks, rows)
    decreases |agg|
  {
    if |agg| > 0 {
      TotalOfGroupRows(agg[1..], ks[1..], rows);
    }
  }

  /** The aggregate's cases add up to the cases of every input row that has a state: summing conflates outcome types but loses nothing. */
  lemma AggregatePreservesTotal(rows: seq<DatedRow>, now: string)
    requires Aggregate(rows, now).Ok?
    ensures TotalCases(Aggregate(rows, now).value) == PresentTotal(rows)
  {
    var agg := Aggregate(rows, now).value;
    var ks := GroupKeys(rows);
    SortedDistinct(ks);
    forall i | 0 <= i < |rows| && rows[i].state.Some?
      ensures KeyOf(rows[i]).value in ks
    {
      assert InGroup(rows[i], KeyOf(rows[i]).value);
    }
    SumOverCoveringKeys(ks, rows);
    TotalOfGroupRows(agg, ks, rows);
  }

  /** The rows whose test `p` comes out as `keep`, in order. */
  function Select(rows: seq<DatedRow>, p: DatedRow -> bool, keep: bool): seq<DatedRow>
    decreases |rows|
  {
    if |rows| == 0 then []
    else (if p(rows[0]) == keep then [rows[0]] else []) + Select(rows[1..], p, keep)
  }

  lemma {:induction false} GroupSumConcat(a: seq<DatedRow>, b: seq<DatedRow>, k: GroupKey)
    ensures GroupSum(a + b, k) == GroupSum(a, k) + GroupSum(b, k)
    decreases |a|
  {
    if |a| > 0 {
      assert (a + b)[1..] == a[1..] + b;
      GroupSumConcat(a[1..], b, k);
    } else {
      assert a + b == b;
    }
  }

  /** Splitting the rows into any two parts and adding the parts' group sums gives the group sum of the whole. */
  lemma {:induction false} GroupSumPartition(rows: seq<DatedRow>, p: DatedRow -> bool, k: GroupKey)
    ensures GroupSum(rows, k) == GroupSum(Select(rows, p, true), k) + GroupSum(Select(rows, p, false), k)
    decreases |rows|
  {
    if |rows| > 0 {
      var head := [rows[0]];
      var none: seq<DatedRow> := [];
      GroupSumPartition(rows[1..], p, k);
      assert GroupSum(head, k) == GroupSum(rows, k) - GroupSum(rows[1..], k) by {
        assert head[1..] == [];
      }
      if p(rows[0]) {
        assert Select(rows, p, true) == head + Select(rows[1..], p, true);
        assert Select(rows, p, false) == none + Select(rows[1..], p, false);
        GroupSumConcat(head, Select(rows[1..], p, true), k);
        GroupSumConcat(none, Select(rows[1..], p, false), k);
      } else {
        assert Select(rows, p, true) == none + Select(rows[1..], p, true);
        assert Select(rows, p, false) == head + Select(rows[1..], p, false);
        GroupSumConcat(none, Select(rows[1..], p, true), k);
        GroupSumConcat(head, Select(rows[1..], p, false), k);
      }
    }
  }
}
