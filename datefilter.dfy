/** The sidebar date-range filter and the bounds it is offered.

    `table[(table["date"] >= start) & (table["date"] <= end)]` keeps, in
    their original order, the rows whose date lies in the closed interval
    [start, end]; the same expression is applied to the daily and to the
    hourly table, so it is written once over any row type with a date. */
module DateFilter {
  import opened Wrappers
  import opened Records

  predicate InRange(d: int, start: int, end: int)
  {
    start <= d <= end
  }

  /** The boolean-mask filter on the date column. */
  function FilterByDate<R>(rows: seq<R>, date: R -> int, start: int, end: int): seq<R>
  {
    if |rows| == 0 then []
    else
      (if InRange(date(rows[0]), start, end) then [rows[0]] else [])
      + FilterByDate(rows[1..], date, start, end)
  }

  /** `r` is `s` with some elements left out and the rest in their order. */
  ghost predicate IsSubsequence<R>(r: seq<R>, s: seq<R>)
    decreases |s|
  {
    if |s| == 0 then |r| == 0
    else (|r| > 0 && r[0] == s[0] && IsSubsequence(r[1..], s[1..])) || IsSubsequence(r, s[1..])
  }

  /** The filter keeps exactly the rows in range: every kept row is an
      input row within [start, end], every input row within [start, end]
      is kept, and each distinct row is kept as many times as it occurs. */
  lemma {:induction false} FilterContents<R>(rows: seq<R>, date: R -> int, start: int, end: int)
    ensures forall x :: x in FilterByDate(rows, date, start, end) <==>
      x in rows && InRange(date(x), start, end)
    ensures forall x ::
              multiset(FilterByDate(rows, date, start, end))[x]
              == if InRange(date(x), start, end) then multiset(rows)[x] else 0
  {
    if |rows| > 0 {
      FilterContents(rows[1..], date, start, end);
      assert rows == [rows[0]] + rows[1..];
    }
  }

  /** The filter preserves the order of the rows it keeps. */
  lemma {:induction false} FilterOrder<R>(rows: seq<R>, date: R -> int, start: int, end: int)
    ensures IsSubsequence(FilterByDate(rows, date, start, end), rows)
  {
    if |rows| > 0 {
      var rest := FilterByDate(rows[1..], date, start, end);
      FilterOrder(rows[1..], date, start, end);
      if InRange(date(rows[0]), start, end) {
        assert ([rows[0]] + rest)[1..] == rest;
      } else {
        assert [] + rest == rest;
      }
    }
  }

  /** Filtering a concatenation filters each part. */
  lemma {:induction false} FilterConcat<R>(a: seq<R>, b: seq<R>, date: R -> int, start: int, end: int)
    ensures FilterByDate(a + b, date, start, end)
      == FilterByDate(a, date, start, end) + FilterByDate(b, date, start, end)
  {
    if |a| > 0 {
      assert (a + b)[1..] == a[1..] + b;
      FilterConcat(a[1..], b, date, start, end);
    } else {
      assert a + b == b;
    }
  }

  /** An inverted range matches no row (it is not an error). */
  lemma {:induction false} FilterInvertedRange<R>(rows: seq<R>, date: R -> int, start: int, end: int)
    requires start > end
    ensures FilterByDate(rows, date, start, end) == []
  {
    if |rows| > 0 { FilterInvertedRange(rows[1..], date, start, end); }
  }

  /** `(table["date"].min(), table["date"].max())`, or nothing for an
      empty table. */
  function DateBounds<R>(rows: seq<R>, date: R -> int): (r: Option<(int, int)>)
    ensures r.None? <==> |rows| == 0
    ensures r.Some? ==> forall i :: 0 <= i < |rows| ==> r.value.0 <= date(rows[i]) <= r.value.1
    ensures r.Some? ==> exists i :: 0 <= i < |rows| && date(rows[i]) == r.value.0
    ensures r.Some? ==> exists i :: 0 <= i < |rows| && date(rows[i]) == r.value.1
  {
    if |rows| == 0 then None
    else
      var d := date(rows[0]);
      match DateBounds(rows[1..], date)
      case None => Some((d, d))
      case Some((lo, hi)) =>
        assert forall i :: 1 <= i < |rows| ==> rows[i] == rows[1..][i - 1];
        var r := (if d < lo then d else lo, if d > hi then d else hi);
        assert r.0 == d || exists i :: 1 <= i < |rows| && date(rows[i]) == r.0;
        assert r.1 == d || exists i :: 1 <= i < |rows| && date(rows[i]) == r.1;
        Some(r)
  }

  /** The default selection, the table's own date bounds, keeps the whole
      table. */
  lemma {:induction false} FilterFullRange<R>(rows: seq<R>, date: R -> int, lo: int, hi: int)
    requires forall i :: 0 <= i < |rows| ==> lo <= date(rows[i]) <= hi
    ensures FilterByDate(rows, date, lo, hi) == rows
  {
    if |rows| > 0 {
      assert forall i :: 0 <= i < |rows[1..]| ==> rows[1..][i] == rows[i + 1];
      FilterFullRange(rows[1..], date, lo, hi);
      assert [rows[0]] + rows[1..] == rows;
    }
  }

  /** Filtering between the bounds `DateBounds` reports is the identity. */
  lemma DefaultSelectionKeepsAll<R>(rows: seq<R>, date: R -> int)
    requires |rows| > 0
    ensures DateBounds(rows, date).Some?
    ensures FilterByDate(rows, date, DateBounds(rows, date).value.0, DateBounds(rows, date).value.1) == rows
  {
    var b := DateBounds(rows, date).value;
    FilterFullRange(rows, date, b.0, b.1);
  }

  // The filter on the two tables of the dashboard.

  lemma {:induction false} FilterDaysCnt(days: seq<DayRecord>, start: int, end: int)
    ensures SumCnt(FilterByDate(days, DayDate, start, end)) <= SumCnt(days)
  {
    if |days| > 0 {
      FilterDaysCnt(days[1..], start, end);
      var rest := FilterByDate(days[1..], DayDate, start, end);
      if InRange(days[0].date, start, end) {
        assert ([days[0]] + rest)[1..] == rest;
      } else {
        assert [] + rest == rest;
      }
    }
  }

  lemma {:induction false} FilterHoursCnt(hours: seq<HourRecord>, start: int, end: int)
    ensures SumHourCnt(FilterByDate(hours, HourDate, start, end)) <= SumHourCnt(hours)
  {
    if |hours| > 0 {
      FilterHoursCnt(hours[1..], start, end);
      var rest := FilterByDate(hours[1..], HourDate, start, end);
      if InRange(hours[0].date, start, end) {
        assert ([hours[0]] + rest)[1..] == rest;
      } else {
        assert [] + rest == rest;
      }
    }
  }

  /** `filtered_day_df` and `filtered_hour_df`: each keeps exactly the rows
      of its table dated within [start, end], and neither holds more rides
      than its table. */
  lemma FilteredTables(days: seq<DayRecord>, hours: seq<HourRecord>, start: int, end: int)
    ensures forall d :: d in FilterByDate(days, DayDate, start, end) <==>
              d in days && start <= d.date <= end
    ensures forall h :: h in FilterByDate(hours, HourDate, start, end) <==>
              h in hours && start <= h.date <= end
    ensures SumCnt(FilterByDate(days, DayDate, start, end)) <= SumCnt(days)
    ensures SumHourCnt(FilterByDate(hours, HourDate, start, end)) <= SumHourCnt(hours)
  {
    FilterContents(days, DayDate, start, end);
    FilterContents(hours, HourDate, start, end);
    FilterDaysCnt(days, start, end);
    FilterHoursCnt(hours, start, end);
  }

}
