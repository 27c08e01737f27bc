/** The hourly section of the dashboard: the hourly summary is left-merged
    onto the 24 hours of the day, hours without rides get a count of 0, and
    the first hour with the largest count is reported. */
module Hourly {
  import opened Wrappers
  import opened Records
  import opened Aggregates
  import opened ArgMax

  /** A row of `all_hours.merge(hourly_usage, on='hr', how='left')`: the
      count is missing when the summary has no row for the hour. */
  datatype JoinedHour = JoinedHour(hr: int, cnt: Option<nat>)

  /** `range(lo, lo + n)`. */
  function HourRange(lo: int, n: nat): (r: seq<int>)
    ensures |r| == n
    ensures forall k :: 0 <= k < n ==> r[k] == lo + k
    decreases n
  {
    if n == 0 then [] else [lo] + HourRange(lo + 1, n - 1)
  }

  /** The `hr` column of `all_hours`: 0 to 23. */
  function AllHours(): seq<int>
  {
    HourRange(0, 24)
  }

  /** The count the summary holds for hour `h`, taken from its first row
      with that hour; missing when no row has it. */
  function LookupHour(r: seq<HourTotal>, h: int): (c: Option<nat>)
    ensures c.None? <==> h !in TotalHours(r)
  {
    if |r| == 0 then None
    else if r[0].hr == h then Some(r[0].cnt)
    else LookupHour(r[1..], h)
  }

  /** The hours of a summary are strictly ascending. */
  predicate HoursAscending(r: seq<HourTotal>)
  {
    forall i, i' :: 0 <= i < i' < |r| ==> r[i].hr < r[i'].hr
  }

  /** The left merge on `hr`: one row per hour of `left`, in its order. */
  function LeftJoin(left: seq<int>, right: seq<HourTotal>): (r: seq<JoinedHour>)
    ensures |r| == |left|
  {
    if |left| == 0 then []
    else [JoinedHour(left[0], LookupHour(right, left[0]))] + LeftJoin(left[1..], right)
  }

  /** `['cnt'].fillna(0)`. */
  function FillNa(rows: seq<JoinedHour>): (r: seq<HourTotal>)
    ensures |r| == |rows|
  {
    if |rows| == 0 then []
    else
      [HourTotal(rows[0].hr, if rows[0].cnt.Some? then rows[0].cnt.value else 0)]
      + FillNa(rows[1..])
  }

  /** The hourly table of the dashboard, one row per hour of the day. */
  function HourlyGapFill(hours: seq<HourRecord>): (r: seq<HourTotal>)
    ensures |r| == 24
  {
    FillNa(LeftJoin(AllHours(), AnalyzeHourlyUsage(hours)))
  }

  /** The `cnt` column as the floating-point column `fillna` leaves. */
  function CntColumn(t: seq<HourTotal>): (c: seq<real>)
    ensures |c| == |t|
    ensures forall k :: 0 <= k < |t| ==> c[k] == t[k].cnt as real
  {
    if |t| == 0 then [] else [t[0].cnt as real] + CntColumn(t[1..])
  }

  /** `hourly_usage.loc[hourly_usage['cnt'].idxmax()]`: the merged table
      keeps the default index 0..23, so the label is the row position. */
  function HighestUsageHour(hours: seq<HourRecord>): HourTotal
  {
    var t := HourlyGapFill(hours);
    t[IdxMax(CntColumn(t)).value]
  }

  lemma {:induction false} LeftJoinFacts(left: seq<int>, right: seq<HourTotal>)
    ensures forall k :: 0 <= k < |left| ==>
              LeftJoin(left, right)[k] == JoinedHour(left[k], LookupHour(right, left[k]))
  {
    if |left| > 0 {
      LeftJoinFacts(left[1..], right);
      var r := LeftJoin(left, right);
      forall k | 1 <= k < |left|
        ensures r[k] == JoinedHour(left[k], LookupHour(right, left[k]))
      {
        assert r[k] == LeftJoin(left[1..], right)[k - 1];
        assert left[k] == left[1..][k - 1];
      }
    }
  }

  lemma {:induction false} FillNaFacts(rows: seq<JoinedHour>)
    ensures forall k :: 0 <= k < |rows| ==>
              FillNa(rows)[k] == HourTotal(rows[k].hr, if rows[k].cnt.Some? then rows[k].cnt.value else 0)
  {
    if |rows| > 0 {
      FillNaFacts(rows[1..]);
      var r := FillNa(rows);
      forall k | 1 <= k < |rows|
        ensures r[k] == HourTotal(rows[k].hr, if rows[k].cnt.Some? then rows[k].cnt.value else 0)
      {
        assert r[k] == FillNa(rows[1..])[k - 1];
        assert rows[k] == rows[1..][k - 1];
      }
    }
  }

  /** In a summary with ascending hours the first match is the only one. */
  lemma {:induction false} LookupAscending(r: seq<HourTotal>, i: nat)
    requires HoursAscending(r)
    requires i < |r|
    ensures LookupHour(r, r[i].hr) == Some(r[i].cnt)
  {
    if i > 0 {
      assert r[0].hr < r[i].hr;
      assert HoursAscending(r[1..]) by {
        forall a, b | 0 <= a < b < |r[1..]| ensures r[1..][a].hr < r[1..][b].hr {
          assert r[1..][a] == r[a + 1] && r[1..][b] == r[b + 1];
        }
      }
      assert r[1..][i - 1] == r[i];
      LookupAscending(r[1..], i - 1);
    }
  }

  /** An hour that no row has has no rides. */
  lemma {:induction false} HourSumAbsent(hours: seq<HourRecord>, h: int)
    requires h !in HoursOf(hours)
    ensures HourSum(hours, h) == 0
  {
    if |hours| > 0 {
      HourSumAbsent(hours[1..], h);
    }
  }

  /** Row `h` of the gap-filled table is hour `h` with all of its rides,
      0 for an hour the hourly table does not have. */
  lemma GapFillRow(hours: seq<HourRecord>, h: nat)
    requires h < 24
    ensures HourlyGapFill(hours)[h] == HourTotal(h, HourSum(hours, h))
  {
    var r := AnalyzeHourlyUsage(hours);
    LeftJoinFacts(AllHours(), r);
    FillNaFacts(LeftJoin(AllHours(), r));
    AnalyzeHourlyUsageSpec(hours);
    TotalHoursMember(r, h);
    if h in TotalHours(r) {
      var i :| 0 <= i < |r| && r[i].hr == h;
      LookupAscending(r, i);
    } else {
      HourSumAbsent(hours, h);
    }
  }

  /** The gap-filled table has the 24 hours of the day in order, each with
      the sum of its counts in the hourly table. */
  lemma HourlyGapFillSpec(hours: seq<HourRecord>)
    ensures |HourlyGapFill(hours)| == 24
    ensures forall h :: 0 <= h < 24 ==> HourlyGapFill(hours)[h].hr == h
    ensures forall h :: 0 <= h < 24 ==> HourlyGapFill(hours)[h].cnt == HourSum(hours, h)
  {
    forall h | 0 <= h < 24
      ensures HourlyGapFill(hours)[h] == HourTotal(h, HourSum(hours, h))
    {
      GapFillRow(hours, h);
    }
  }

  // Filling the gaps neither loses nor invents rides.

  /** The rides of hours `lo .. lo + n - 1`, hour by hour. */
  function HourSumsFrom(hours: seq<HourRecord>, lo: int, n: nat): nat
    decreases n
  {
    if n == 0 then 0 else HourSum(hours, lo) + HourSumsFrom(hours, lo + 1, n - 1)
  }

  /** Every hour of the hourly table is an hour of the day. */
  predicate ValidHours(hours: seq<HourRecord>)
  {
    forall j :: 0 <= j < |hours| ==> 0 <= hours[j].hr < 24
  }

  lemma {:induction false} HourSumsCons(hours: seq<HourRecord>, lo: int, n: nat)
    requires |hours| > 0
    ensures HourSumsFrom(hours, lo, n)
      == (if lo <= hours[0].hr < lo + n then hours[0].cnt else 0) + HourSumsFrom(hours[1..], lo, n)
    decreases n
  {
    if n > 0 {
      HourSumsCons(hours, lo + 1, n - 1);
    }
  }

  lemma {:induction false} HourSumsComplete(hours: seq<HourRecord>)
    requires ValidHours(hours)
    ensures HourSumsFrom(hours, 0, 24) == SumHourCnt(hours)
  {
    if |hours| > 0 {
      assert ValidHours(hours[1..]) by {
        forall j | 0 <= j < |hours[1..]| ensures 0 <= hours[1..][j].hr < 24 {
          assert hours[1..][j] == hours[j + 1];
        }
      }
      HourSumsComplete(hours[1..]);
      HourSumsCons(hours, 0, 24);
    } else {
      assert HourSumsFrom(hours, 0, 24) == 0 by {
        ZeroSums(hours, 0, 24);
      }
    }
  }

  lemma {:induction false} ZeroSums(hours: seq<HourRecord>, lo: int, n: nat)
    requires |hours| == 0
    ensures HourSumsFrom(hours, lo, n) == 0
    decreases n
  {
    if n > 0 {
      ZeroSums(hours, lo + 1, n - 1);
    }
  }

  lemma {:induction false} GapFillTotalFrom(t: seq<HourTotal>, hours: seq<HourRecord>, lo: int)
    requires forall k :: 0 <= k < |t| ==> t[k] == HourTotal(lo + k, HourSum(hours, lo + k))
    ensures HourTotalsCnt(t) == HourSumsFrom(hours, lo, |t|)
  {
    if |t| > 0 {
      forall k | 0 <= k < |t[1..]|
        ensures t[1..][k] == HourTotal(lo + 1 + k, HourSum(hours, lo + 1 + k))
      {
        assert t[1..][k] == t[k + 1];
      }
      GapFillTotalFrom(t[1..], hours, lo + 1);
    }
  }

  /** The gap-filled table holds the rides of hours 0..23, which are all
      the rides when every hour of the table is an hour of the day. */
  lemma HourlyGapFillTotal(hours: seq<HourRecord>)
    ensures HourTotalsCnt(HourlyGapFill(hours)) == HourSumsFrom(hours, 0, 24)
    ensures ValidHours(hours) ==> HourTotalsCnt(HourlyGapFill(hours)) == SumHourCnt(hours)
  {
    var t := HourlyGapFill(hours);
    forall k | 0 <= k < |t| ensures t[k] == HourTotal(0 + k, HourSum(hours, 0 + k)) {
      GapFillRow(hours, k);
    }
    GapFillTotalFrom(t, hours, 0);
    if ValidHours(hours) {
      HourSumsComplete(hours);
    }
  }

  // The busiest hour.

  /** `h` is an hour of the day with the most rides, and no earlier hour
      has as many. */
  predicate IsPeakHour(hours: seq<HourRecord>, h: int)
  {
    && 0 <= h < 24
    && (forall h' :: 0 <= h' < 24 ==> HourSum(hours, h') <= HourSum(hours, h))
    && (forall h' :: 0 <= h' < h ==> HourSum(hours, h') < HourSum(hours, h))
  }

  /** The reported hour is the first hour of the day with the most rides,
      and its count is the rides of that hour. */
  lemma HighestUsageHourSpec(hours: seq<HourRecord>)
    ensures IsPeakHour(hours, HighestUsageHour(hours).hr)
    ensures HighestUsageHour(hours).cnt == HourSum(hours, HighestUsageHour(hours).hr)
  {
    var t := HourlyGapFill(hours);
    var c := CntColumn(t);
    var k := IdxMax(c).value;
    GapFillRow(hours, k);
    forall h | 0 <= h < 24 ensures HourSum(hours, h) <= HourSum(hours, k) {
      GapFillRow(hours, h);
      assert c[h] <= c[k];
    }
    forall h | 0 <= h < k ensures HourSum(hours, h) < HourSum(hours, k) {
      GapFillRow(hours, h);
      assert c[h] < c[k];
    }
  }

  /** The peak hour is determined: it is the hour the dashboard reports. */
  lemma PeakHourUnique(hours: seq<HourRecord>, h: int)
    requires IsPeakHour(hours, h)
    ensures HighestUsageHour(hours).hr == h
  {
    HighestUsageHourSpec(hours);
  }

}
