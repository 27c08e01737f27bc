/** The summary functions of the dashboard: column totals and the
    group-by-sum tables, each followed by the year remap and a label column.

    The five day-level summaries share one shape,
    `data.groupby([code, "yr"])["cnt"].sum().reset_index()`, the year
    rewritten by `YearRemap` and a label column mapped from the code; they
    differ only in the code column and its label table, so the shape is
    written once (`SummarizeByColumn`) and each summary instantiates it. */
module Aggregates {
  import opened Wrappers
  import opened Keys
  import opened GroupBy
  import opened Records
  import opened Labels

  /** The key columns of the daily table's group-bys. `Yr` appears only as
      the second key of a (code, yr) group-by and is remapped rather than
      labelled, so `LabelOf(Yr, _)` is `None`; no summary of the dashboard
      groups by the year column alone. */
  datatype DayColumn = Season | Yr | Mnth | Holiday | Workingday | Weathersit

  function Code(d: DayRecord, c: DayColumn): int
  {
    match c
    case Season => d.season
    case Yr => d.yr
    case Mnth => d.mnth
    case Holiday => d.holiday
    case Workingday => d.workingday
    case Weathersit => d.weathersit
  }

  /** The label table each summary maps its code column through. */
  function LabelOf(c: DayColumn, code: int): Option<string>
  {
    match c
    case Season => SeasonName(code)
    case Yr => None
    case Mnth => MonthName(code)
    case Holiday => HolidayName(code)
    case Workingday => WorkdayName(code)
    case Weathersit => WeatherName(code)
  }

  /** The group key of a day for `groupby(cols)`. */
  function DayKey(d: DayRecord, cols: seq<DayColumn>): Key
  {
    if |cols| == 0 then [] else [Int(Code(d, cols[0]))] + DayKey(d, cols[1..])
  }

  /** The day table projected onto (key, cnt, one row). */
  function DayEntries(days: seq<DayRecord>, cols: seq<DayColumn>): seq<Group>
  {
    if |days| == 0 then []
    else [Group(DayKey(days[0], cols), days[0].cnt, 1)] + DayEntries(days[1..], cols)
  }

  /** The sum of `cnt` over the days whose key is `k`. */
  function KeyCnt(days: seq<DayRecord>, cols: seq<DayColumn>, k: Key): nat
  {
    if |days| == 0 then 0
    else (if DayKey(days[0], cols) == k then days[0].cnt else 0) + KeyCnt(days[1..], cols, k)
  }

  /** The number of days whose key is `k`. */
  function KeyRows(days: seq<DayRecord>, cols: seq<DayColumn>, k: Key): nat
  {
    if |days| == 0 then 0
    else (if DayKey(days[0], cols) == k then 1 else 0) + KeyRows(days[1..], cols, k)
  }

  /** Integer cell `i` of a key (0 if there is none). */
  function Component(k: Key, i: nat): int
  {
    if i < |k| && k[i].Int? then k[i].n else 0
  }

  lemma PairDayKey(d: DayRecord, a: DayColumn, b: DayColumn)
    ensures DayKey(d, [a, b]) == [Int(Code(d, a)), Int(Code(d, b))]
  {
    assert [a, b][1..] == [b];
    SingleDayKey(d, b);
  }

  lemma SingleDayKey(d: DayRecord, a: DayColumn)
    ensures DayKey(d, [a]) == [Int(Code(d, a))]
  {
    assert [a][1..] == [];
  }

  /** What the projection keeps of the day table: row by row keys and
      counts, its keys, its per-key sums and sizes, and its grand total. */
  lemma {:induction false} DayEntriesFacts(days: seq<DayRecord>, cols: seq<DayColumn>, k: Key)
    ensures |DayEntries(days, cols)| == |days|
    ensures forall j :: 0 <= j < |days| ==>
      DayEntries(days, cols)[j] == Group(DayKey(days[j], cols), days[j].cnt, 1)
    ensures SumWhere(DayEntries(days, cols), k) == KeyCnt(days, cols, k)
    ensures SizeWhere(DayEntries(days, cols), k) == KeyRows(days, cols, k)
    ensures Total(DayEntries(days, cols)) == SumCnt(days)
  {
    if |days| > 0 {
      DayEntriesFacts(days[1..], cols, k);
      var es := DayEntries(days, cols);
      assert es[1..] == DayEntries(days[1..], cols);
      forall j | 1 <= j < |days|
        ensures es[j] == Group(DayKey(days[j], cols), days[j].cnt, 1)
      {
        assert es[j] == es[1..][j - 1];
        assert days[j] == days[1..][j - 1];
      }
    }
  }

  /** A key occurs in the projection exactly when some day has it. */
  lemma DayEntriesKeys(days: seq<DayRecord>, cols: seq<DayColumn>, k: Key)
    ensures k in KeySet(DayEntries(days, cols)) <==>
      exists j :: 0 <= j < |days| && DayKey(days[j], cols) == k
  {
    DayEntriesFacts(days, cols, k);
    KeySetMember(DayEntries(days, cols), k);
  }

  // ---------------------------------------------------------------------
  // summarize_casual_registered

  datatype UserTypeTotal = UserTypeTotal(userType: string, total: nat)

  /** The two-row table of casual and registered totals. */
  function SummarizeCasualRegistered(days: seq<DayRecord>): (r: seq<UserTypeTotal>)
    ensures |r| == 2
    ensures r[0] == UserTypeTotal("Casual", SumCasual(days))
    ensures r[1] == UserTypeTotal("Registered", SumRegistered(days))
  {
    [UserTypeTotal("Casual", SumCasual(days)), UserTypeTotal("Registered", SumRegistered(days))]
  }

  /** When every day's `cnt` is its casual plus registered riders, the two
      totals together account for every ride. */
  lemma {:induction false} CasualRegisteredCoverRides(days: seq<DayRecord>)
    requires CountsConsistent(days)
    ensures SummarizeCasualRegistered(days)[0].total + SummarizeCasualRegistered(days)[1].total
            == SumCnt(days)
  {
    if |days| > 0 {
      assert CountsConsistent(days[1..]) by {
        forall i | 0 <= i < |days[1..]|
          ensures days[1..][i].cnt == days[1..][i].casual + days[1..][i].registered
        {
          assert days[1..][i] == days[i + 1];
        }
      }
      CasualRegisteredCoverRides(days[1..]);
    }
  }

  // ---------------------------------------------------------------------
  // The (code, yr) summaries

  /** A row of a (code, yr) summary: the code, the remapped year, the
      summed `cnt` and the label mapped from the code. */
  datatype CodeYearRow = CodeYearRow(code: int, yr: int, cnt: nat, name: Option<string>)

  function CodeYearRowOf(g: Group, c: DayColumn): CodeYearRow
  {
    CodeYearRow(Component(g.key, 0), YearRemap(Component(g.key, 1)), g.total,
                LabelOf(c, Component(g.key, 0)))
  }

  /** `reset_index()`, the year remap and the label column, row by row. */
  function CodeYearRows(gs: seq<Group>, c: DayColumn): seq<CodeYearRow>
  {
    if |gs| == 0 then [] else [CodeYearRowOf(gs[0], c)] + CodeYearRows(gs[1..], c)
  }

  /** The shared shape of the five day-level summaries. */
  function SummarizeByColumn(days: seq<DayRecord>, c: DayColumn): seq<CodeYearRow>
  {
    CodeYearRows(GroupSum(DayEntries(days, [c, Yr])), c)
  }

  /** The sum of `cnt` over the days with code `code` and remapped year `yr`. */
  function CntWhere(days: seq<DayRecord>, c: DayColumn, code: int, yr: int): nat
  {
    if |days| == 0 then 0
    else
      (if Code(days[0], c) == code && YearRemap(days[0].yr) == yr then days[0].cnt else 0)
      + CntWhere(days[1..], c, code, yr)
  }

  /** The (code, remapped year) pairs occurring in a summary. */
  function RowPairs(r: seq<CodeYearRow>): set<(int, int)>
  {
    if |r| == 0 then {} else {(r[0].code, r[0].yr)} + RowPairs(r[1..])
  }

  /** The (code, remapped year) pairs occurring in the daily table. */
  function DayPairs(days: seq<DayRecord>, c: DayColumn): set<(int, int)>
  {
    if |days| == 0 then {} else {(Code(days[0], c), YearRemap(days[0].yr))} + DayPairs(days[1..], c)
  }

  function RowsCnt(r: seq<CodeYearRow>): nat
  {
    if |r| == 0 then 0 else r[0].cnt + RowsCnt(r[1..])
  }

  lemma {:induction false} CodeYearRowsFacts(gs: seq<Group>, c: DayColumn)
    ensures |CodeYearRows(gs, c)| == |gs|
    ensures forall i :: 0 <= i < |gs| ==> CodeYearRows(gs, c)[i] == CodeYearRowOf(gs[i], c)
    ensures RowsCnt(CodeYearRows(gs, c)) == Total(gs)
  {
    if |gs| > 0 {
      CodeYearRowsFacts(gs[1..], c);
      var r := CodeYearRows(gs, c);
      forall i | 1 <= i < |gs| ensures r[i] == CodeYearRowOf(gs[i], c) {
        assert r[i] == r[1..][i - 1];
        assert gs[i] == gs[1..][i - 1];
      }
    }
  }

  lemma {:induction false} RowPairsMember(r: seq<CodeYearRow>, p: (int, int))
    ensures p in RowPairs(r) <==> exists i :: 0 <= i < |r| && (r[i].code, r[i].yr) == p
  {
    if |r| > 0 {
      RowPairsMember(r[1..], p);
      if p in RowPairs(r[1..]) {
        var i :| 0 <= i < |r[1..]| && (r[1..][i].code, r[1..][i].yr) == p;
        assert r[i + 1] == r[1..][i];
      }
      if exists i :: 0 <= i < |r| && (r[i].code, r[i].yr) == p {
        var i :| 0 <= i < |r| && (r[i].code, r[i].yr) == p;
        if i > 0 { assert r[1..][i - 1] == r[i]; }
      }
    }
  }

  lemma {:induction false} DayPairsMember(days: seq<DayRecord>, c: DayColumn, p: (int, int))
    ensures p in DayPairs(days, c) <==>
      exists j :: 0 <= j < |days| && (Code(days[j], c), YearRemap(days[j].yr)) == p
  {
    if |days| > 0 {
      DayPairsMember(days[1..], c, p);
      if p in DayPairs(days[1..], c) {
        var j :| 0 <= j < |days[1..]| && (Code(days[1..][j], c), YearRemap(days[1..][j].yr)) == p;
        assert days[j + 1] == days[1..][j];
      }
      if exists j :: 0 <= j < |days| && (Code(days[j], c), YearRemap(days[j].yr)) == p {
        var j :| 0 <= j < |days| && (Code(days[j], c), YearRemap(days[j].yr)) == p;
        if j > 0 { assert days[1..][j - 1] == days[j]; }
      }
    }
  }

  /** With the year codes in {0, 1}, the raw-key sum is the sum over the
      remapped year. */
  lemma {:induction false} KeyCntRemapped(days: seq<DayRecord>, c: DayColumn, a: int, b: int)
    requires ValidYears(days) && (b == 0 || b == 1)
    ensures KeyCnt(days, [c, Yr], [Int(a), Int(b)]) == CntWhere(days, c, a, YearRemap(b))
  {
    if |days| > 0 {
      PairDayKey(days[0], c, Yr);
      assert ValidYears(days[1..]) by {
        forall i | 0 <= i < |days[1..]| ensures days[1..][i].yr == 0 || days[1..][i].yr == 1 {
          assert days[1..][i] == days[i + 1];
        }
      }
      KeyCntRemapped(days[1..], c, a, b);
    }
  }

  /** The key of every group of a (code, yr) group-by comes from a day. */
  lemma GroupKeyFromDay(days: seq<DayRecord>, cols: seq<DayColumn>, i: nat)
    requires i < |GroupSum(DayEntries(days, cols))|
    ensures exists j :: 0 <= j < |days| && DayKey(days[j], cols) == GroupSum(DayEntries(days, cols))[i].key
  {
    var gs := GroupSum(DayEntries(days, cols));
    GroupSumCorrect(DayEntries(days, cols));
    KeySetMember(gs, gs[i].key);
    DayEntriesKeys(days, cols, gs[i].key);
  }

  /** Every day has a group with its key. */
  lemma DayHasGroup(days: seq<DayRecord>, cols: seq<DayColumn>, j: nat)
    requires j < |days|
    ensures exists i ::
              0 <= i < |GroupSum(DayEntries(days, cols))|
              && GroupSum(DayEntries(days, cols))[i].key == DayKey(days[j], cols)
  {
    var gs := GroupSum(DayEntries(days, cols));
    GroupSumCorrect(DayEntries(days, cols));
    DayEntriesKeys(days, cols, DayKey(days[j], cols));
    KeySetMember(gs, DayKey(days[j], cols));
  }

  /** Row i of a summary comes from the group of some day j: its code is
      that day's code and its year that day's remapped year. */
  lemma SummaryRowKey(days: seq<DayRecord>, c: DayColumn, i: nat) returns (j: nat)
    requires i < |SummarizeByColumn(days, c)|
    ensures j < |days|
    ensures |GroupSum(DayEntries(days, [c, Yr]))| == |SummarizeByColumn(days, c)|
    ensures GroupSum(DayEntries(days, [c, Yr]))[i].key == [Int(Code(days[j], c)), Int(days[j].yr)]
    ensures SummarizeByColumn(days, c)[i] == CodeYearRowOf(GroupSum(DayEntries(days, [c, Yr]))[i], c)
    ensures SummarizeByColumn(days, c)[i].code == Code(days[j], c)
    ensures SummarizeByColumn(days, c)[i].yr == YearRemap(days[j].yr)
  {
    var gs := GroupSum(DayEntries(days, [c, Yr]));
    CodeYearRowsFacts(gs, c);
    GroupKeyFromDay(days, [c, Yr], i);
    j :| 0 <= j < |days| && DayKey(days[j], [c, Yr]) == gs[i].key;
    PairDayKey(days[j], c, Yr);
  }

  /** Every day has a summary row with its code and remapped year. */
  lemma SummaryRowOfDay(days: seq<DayRecord>, c: DayColumn, j: nat) returns (i: nat)
    requires j < |days|
    ensures i < |SummarizeByColumn(days, c)|
    ensures SummarizeByColumn(days, c)[i].code == Code(days[j], c)
    ensures SummarizeByColumn(days, c)[i].yr == YearRemap(days[j].yr)
  {
    var gs := GroupSum(DayEntries(days, [c, Yr]));
    CodeYearRowsFacts(gs, c);
    DayHasGroup(days, [c, Yr], j);
    i :| 0 <= i < |gs| && gs[i].key == DayKey(days[j], [c, Yr]);
    PairDayKey(days[j], c, Yr);
  }

  /** The rows of a summary are exactly the (code, remapped year) pairs of
      the input. */
  lemma SummaryPairs(days: seq<DayRecord>, c: DayColumn)
    ensures RowPairs(SummarizeByColumn(days, c)) == DayPairs(days, c)
  {
    var gs := GroupSum(DayEntries(days, [c, Yr]));
    var r := SummarizeByColumn(days, c);
    forall p ensures p in RowPairs(r) <==> p in DayPairs(days, c) {
      RowPairsMember(r, p);
      DayPairsMember(days, c, p);
      if p in RowPairs(r) {
        var i :| 0 <= i < |r| && (r[i].code, r[i].yr) == p;
        var j := SummaryRowKey(days, c, i);
      }
      if p in DayPairs(days, c) {
        var j :| 0 <= j < |days| && (Code(days[j], c), YearRemap(days[j].yr)) == p;
        var i := SummaryRowOfDay(days, c, j);
      }
    }
  }

  /** The rows of a summary are ordered by code, and, when every year code
      is 0 or 1, strictly by (code, year). */
  lemma SummaryOrder(days: seq<DayRecord>, c: DayColumn, i: nat, i': nat)
    requires i < i' < |SummarizeByColumn(days, c)|
    ensures SummarizeByColumn(days, c)[i].code <= SummarizeByColumn(days, c)[i'].code
    ensures ValidYears(days) ==>
              || SummarizeByColumn(days, c)[i].code < SummarizeByColumn(days, c)[i'].code
              || (&& SummarizeByColumn(days, c)[i].code == SummarizeByColumn(days, c)[i'].code
                  && SummarizeByColumn(days, c)[i].yr < SummarizeByColumn(days, c)[i'].yr)
  {
    var es := DayEntries(days, [c, Yr]);
    var gs := GroupSum(es);
    var j := SummaryRowKey(days, c, i);
    var j' := SummaryRowKey(days, c, i');
    GroupSumInvariant(es);
    SortedPairwise(gs, i, i');
    PairKeyLt(Code(days[j], c), days[j].yr, Code(days[j'], c), days[j'].yr);
  }

  /** When every year code is 0 or 1, each row holds the sum of `cnt` over
      the days with its code and year. */
  lemma SummaryRowTotal(days: seq<DayRecord>, c: DayColumn, i: nat)
    requires ValidYears(days) && i < |SummarizeByColumn(days, c)|
    ensures SummarizeByColumn(days, c)[i].cnt
            == CntWhere(days, c, SummarizeByColumn(days, c)[i].code, SummarizeByColumn(days, c)[i].yr)
  {
    var es := DayEntries(days, [c, Yr]);
    var gs := GroupSum(es);
    var j := SummaryRowKey(days, c, i);
    GroupSumCorrect(es);
    DayEntriesFacts(days, [c, Yr], gs[i].key);
    KeyCntRemapped(days, c, Code(days[j], c), days[j].yr);
  }

  lemma {:induction false} DistinctPairsCard(r: seq<CodeYearRow>)
    requires forall i, i' :: 0 <= i < i' < |r| ==> (r[i].code, r[i].yr) != (r[i'].code, r[i'].yr)
    ensures |RowPairs(r)| == |r|
  {
    if |r| > 0 {
      RowPairsMember(r[1..], (r[0].code, r[0].yr));
      DistinctPairsCard(r[1..]);
    }
  }

  /** The contract shared by the five day-level summaries. Each yields one
      row per (code, remapped year) pair present in the input, with the
      label of its code, ordered by code; the rows account for every ride;
      an empty table yields an empty summary. */
  lemma SummarizeByColumnSpec(days: seq<DayRecord>, c: DayColumn)
    ensures RowPairs(SummarizeByColumn(days, c)) == DayPairs(days, c)
    ensures RowsCnt(SummarizeByColumn(days, c)) == SumCnt(days)
    ensures |SummarizeByColumn(days, c)| == 0 <==> |days| == 0
    ensures forall i :: 0 <= i < |SummarizeByColumn(days, c)| ==>
              SummarizeByColumn(days, c)[i].name == LabelOf(c, SummarizeByColumn(days, c)[i].code)
    ensures forall i, i' :: 0 <= i < i' < |SummarizeByColumn(days, c)| ==>
              SummarizeByColumn(days, c)[i].code <= SummarizeByColumn(days, c)[i'].code
  {
    var es := DayEntries(days, [c, Yr]);
    var gs := GroupSum(es);
    var r := SummarizeByColumn(days, c);
    CodeYearRowsFacts(gs, c);
    GroupSumCorrect(es);
    DayEntriesFacts(days, [c, Yr], []);
    SummaryPairs(days, c);
    forall i, i' | 0 <= i < i' < |r| ensures r[i].code <= r[i'].code {
      SummaryOrder(days, c, i, i');
    }
  }

  /** When every year code is 0 or 1, the rows of a summary are strictly
      ascending by (code, year), their number is the number of distinct
      pairs, and each row's count is the sum over the days with its code
      and year. */
  lemma SummarizeByColumnValidYears(days: seq<DayRecord>, c: DayColumn)
    requires ValidYears(days)
    ensures forall i, i' :: 0 <= i < i' < |SummarizeByColumn(days, c)| ==>
              || SummarizeByColumn(days, c)[i].code < SummarizeByColumn(days, c)[i'].code
              || (&& SummarizeByColumn(days, c)[i].code == SummarizeByColumn(days, c)[i'].code
                  && SummarizeByColumn(days, c)[i].yr < SummarizeByColumn(days, c)[i'].yr)
    ensures forall i :: 0 <= i < |SummarizeByColumn(days, c)| ==>
              SummarizeByColumn(days, c)[i].cnt
              == CntWhere(days, c, SummarizeByColumn(days, c)[i].code, SummarizeByColumn(days, c)[i].yr)
    ensures |SummarizeByColumn(days, c)| == |DayPairs(days, c)|
  {
    var r := SummarizeByColumn(days, c);
    forall i, i' | 0 <= i < i' < |r|
      ensures r[i].code < r[i'].code || (r[i].code == r[i'].code && r[i].yr < r[i'].yr)
    {
      SummaryOrder(days, c, i, i');
    }
    forall i | 0 <= i < |r| ensures r[i].cnt == CntWhere(days, c, r[i].code, r[i].yr) {
      SummaryRowTotal(days, c, i);
    }
    DistinctPairsCard(r);
    SummaryPairs(days, c);
  }

  /** `analyze_monthly_usage`: groupby (mnth, yr), month names. */
  function AnalyzeMonthlyUsage(days: seq<DayRecord>): (r: seq<CodeYearRow>)
    ensures RowPairs(r) == DayPairs(days, Mnth) && RowsCnt(r) == SumCnt(days)
    ensures forall i :: 0 <= i < |r| ==>
      r[i].name == MonthName(r[i].code) && (r[i].name.Some? <==> 1 <= r[i].code <= 12)
  {
    SummarizeByColumnSpec(days, Mnth);
    SummarizeByColumn(days, Mnth)
  }

  /** `summarize_holiday_usage`: groupby (holiday, yr), day-type names. */
  function SummarizeHolidayUsage(days: seq<DayRecord>): (r: seq<CodeYearRow>)
    ensures RowPairs(r) == DayPairs(days, Holiday) && RowsCnt(r) == SumCnt(days)
    ensures forall i :: 0 <= i < |r| ==>
      r[i].name == HolidayName(r[i].code) && (r[i].name.Some? <==> r[i].code in {0, 1})
  {
    SummarizeByColumnSpec(days, Holiday);
    SummarizeByColumn(days, Holiday)
  }

  /** `summarize_workday_usage`: groupby (workingday, yr), day-category names. */
  function SummarizeWorkdayUsage(days: seq<DayRecord>): (r: seq<CodeYearRow>)
    ensures RowPairs(r) == DayPairs(days, Workingday) && RowsCnt(r) == SumCnt(days)
    ensures forall i :: 0 <= i < |r| ==>
      r[i].name == WorkdayName(r[i].code) && (r[i].name.Some? <==> r[i].code in {0, 1})
  {
    SummarizeByColumnSpec(days, Workingday);
    SummarizeByColumn(days, Workingday)
  }

  /** `summarize_season_usage`: groupby (season, yr), season names. */
  function SummarizeSeasonUsage(days: seq<DayRecord>): (r: seq<CodeYearRow>)
    ensures RowPairs(r) == DayPairs(days, Season) && RowsCnt(r) == SumCnt(days)
    ensures forall i :: 0 <= i < |r| ==>
      r[i].name == SeasonName(r[i].code) && (r[i].name.Some? <==> 1 <= r[i].code <= 4)
  {
    SummarizeByColumnSpec(days, Season);
    SummarizeByColumn(days, Season)
  }

  /** `summarize_weather_usage`: groupby (weathersit, yr), weather conditions. */
  function SummarizeWeatherUsage(days: seq<DayRecord>): (r: seq<CodeYearRow>)
    ensures RowPairs(r) == DayPairs(days, Weathersit) && RowsCnt(r) == SumCnt(days)
    ensures forall i :: 0 <= i < |r| ==>
      r[i].name == WeatherName(r[i].code) && (r[i].name.Some? <==> 1 <= r[i].code <= 4)
  {
    SummarizeByColumnSpec(days, Weathersit);
    SummarizeByColumn(days, Weathersit)
  }

  /** The documented example: two spring days, one per year, give one
      spring row per year holding that day's count. */
  lemma SeasonUsageExample()
    ensures SummarizeSeasonUsage([
      DayRecord(0, 1, 0, 1, 0, 1, 1, 40, 60, 100),
      DayRecord(1, 1, 1, 1, 0, 1, 1, 50, 150, 200)])
      == [CodeYearRow(1, 2011, 100, Some("Spring")), CodeYearRow(1, 2012, 200, Some("Spring"))]
  {
    var days := [DayRecord(0, 1, 0, 1, 0, 1, 1, 40, 60, 100),
                 DayRecord(1, 1, 1, 1, 0, 1, 1, 50, 150, 200)];
    PairDayKey(days[0], Season, Yr);
    PairDayKey(days[1], Season, Yr);
    assert days[1..] == [days[1]];
    assert days[1..][1..] == [];
    var es := DayEntries(days, [Season, Yr]);
    assert es == [Group([Int(1), Int(0)], 100, 1), Group([Int(1), Int(1)], 200, 1)];
    PairKeyLt(1, 0, 1, 1);
    assert GroupSum(es[1..]) == [Group([Int(1), Int(1)], 200, 1)];
    assert GroupSum(es) == [Group([Int(1), Int(0)], 100, 1), Group([Int(1), Int(1)], 200, 1)];
  }

  // ---------------------------------------------------------------------
  // analyze_hourly_usage

  datatype HourTotal = HourTotal(hr: int, cnt: nat)

  /** The hourly table projected onto ([hr], cnt, one row). */
  function HourEntries(hours: seq<HourRecord>): seq<Group>
  {
    if |hours| == 0 then []
    else [Group([Int(hours[0].hr)], hours[0].cnt, 1)] + HourEntries(hours[1..])
  }

  function HourTotals(gs: seq<Group>): seq<HourTotal>
  {
    if |gs| == 0 then [] else [HourTotal(Component(gs[0].key, 0), gs[0].total)] + HourTotals(gs[1..])
  }

  /** `data.groupby("hr")["cnt"].sum().reset_index()` */
  function AnalyzeHourlyUsage(hours: seq<HourRecord>): seq<HourTotal>
  {
    HourTotals(GroupSum(HourEntries(hours)))
  }

  function HourTotalsCnt(r: seq<HourTotal>): nat
  {
    if |r| == 0 then 0 else r[0].cnt + HourTotalsCnt(r[1..])
  }

  lemma {:induction false} HourEntriesFacts(hours: seq<HourRecord>, h: int)
    ensures |HourEntries(hours)| == |hours|
    ensures forall j :: 0 <= j < |hours| ==> HourEntries(hours)[j] == Group([Int(hours[j].hr)], hours[j].cnt, 1)
    ensures SumWhere(HourEntries(hours), [Int(h)]) == HourSum(hours, h)
    ensures Total(HourEntries(hours)) == SumHourCnt(hours)
  {
    if |hours| > 0 {
      HourEntriesFacts(hours[1..], h);
      var es := HourEntries(hours);
      forall j | 1 <= j < |hours| ensures es[j] == Group([Int(hours[j].hr)], hours[j].cnt, 1) {
        assert es[j] == es[1..][j - 1];
        assert hours[j] == hours[1..][j - 1];
      }
    }
  }

  lemma {:induction false} HourTotalsFacts(gs: seq<Group>)
    ensures |HourTotals(gs)| == |gs|
    ensures forall i :: 0 <= i < |gs| ==> HourTotals(gs)[i] == HourTotal(Component(gs[i].key, 0), gs[i].total)
    ensures HourTotalsCnt(HourTotals(gs)) == Total(gs)
  {
    if |gs| > 0 {
      HourTotalsFacts(gs[1..]);
      var r := HourTotals(gs);
      forall i | 1 <= i < |gs| ensures r[i] == HourTotal(Component(gs[i].key, 0), gs[i].total) {
        assert r[i] == r[1..][i - 1];
        assert gs[i] == gs[1..][i - 1];
      }
    }
  }

  /** The hours a table holds. */
  function HoursOf(hours: seq<HourRecord>): set<int>
  {
    if |hours| == 0 then {} else {hours[0].hr} + HoursOf(hours[1..])
  }

  lemma {:induction false} HoursOfMember(hours: seq<HourRecord>, h: int)
    ensures h in HoursOf(hours) <==> exists j :: 0 <= j < |hours| && hours[j].hr == h
  {
    if |hours| > 0 {
      HoursOfMember(hours[1..], h);
      if h in HoursOf(hours[1..]) {
        var j :| 0 <= j < |hours[1..]| && hours[1..][j].hr == h;
        assert hours[j + 1] == hours[1..][j];
      }
      if exists j :: 0 <= j < |hours| && hours[j].hr == h {
        var j :| 0 <= j < |hours| && hours[j].hr == h;
        if j > 0 { assert hours[1..][j - 1] == hours[j]; }
      }
    }
  }

  /** The hours of an hourly summary. */
  function TotalHours(r: seq<HourTotal>): set<int>
  {
    if |r| == 0 then {} else {r[0].hr} + TotalHours(r[1..])
  }

  lemma {:induction false} TotalHoursMember(r: seq<HourTotal>, h: int)
    ensures h in TotalHours(r) <==> exists i :: 0 <= i < |r| && r[i].hr == h
  {
    if |r| > 0 {
      TotalHoursMember(r[1..], h);
      if h in TotalHours(r[1..]) {
        var i :| 0 <= i < |r[1..]| && r[1..][i].hr == h;
        assert r[i + 1] == r[1..][i];
      }
      if exists i :: 0 <= i < |r| && r[i].hr == h {
        var i :| 0 <= i < |r| && r[i].hr == h;
        if i > 0 { assert r[1..][i - 1] == r[i]; }
      }
    }
  }

  /** Row i of the hourly summary comes from the group of some row j. */
  lemma HourlyRowKey(hours: seq<HourRecord>, i: nat) returns (j: nat)
    requires i < |AnalyzeHourlyUsage(hours)|
    ensures j < |hours|
    ensures |GroupSum(HourEntries(hours))| == |AnalyzeHourlyUsage(hours)|
    ensures GroupSum(HourEntries(hours))[i].key == [Int(hours[j].hr)]
    ensures AnalyzeHourlyUsage(hours)[i] == HourTotal(hours[j].hr, GroupSum(HourEntries(hours))[i].total)
  {
    var es := HourEntries(hours);
    var gs := GroupSum(es);
    HourTotalsFacts(gs);
    GroupSumCorrect(es);
    HourEntriesFacts(hours, 0);
    KeySetMember(gs, gs[i].key);
    KeySetMember(es, gs[i].key);
    var j' :| 0 <= j' < |es| && es[j'].key == gs[i].key;
    j := j';
  }

  /** Every row has the summary row of its hour. */
  lemma HourlyRowOfHour(hours: seq<HourRecord>, j: nat) returns (i: nat)
    requires j < |hours|
    ensures i < |AnalyzeHourlyUsage(hours)|
    ensures AnalyzeHourlyUsage(hours)[i].hr == hours[j].hr
  {
    var es := HourEntries(hours);
    var gs := GroupSum(es);
    GroupSumCorrect(es);
    HourEntriesFacts(hours, 0);
    HourTotalsFacts(gs);
    KeySetMember(es, es[j].key);
    KeySetMember(gs, es[j].key);
    i :| 0 <= i < |gs| && gs[i].key == es[j].key;
  }

  lemma HourlyOrder(hours: seq<HourRecord>, i: nat, i': nat)
    requires i < i' < |AnalyzeHourlyUsage(hours)|
    ensures AnalyzeHourlyUsage(hours)[i].hr < AnalyzeHourlyUsage(hours)[i'].hr
  {
    var es := HourEntries(hours);
    var gs := GroupSum(es);
    var j := HourlyRowKey(hours, i);
    var j' := HourlyRowKey(hours, i');
    GroupSumInvariant(es);
    SortedPairwise(gs, i, i');
    SingleKeyLt(hours[j].hr, hours[j'].hr);
  }

  lemma HourlyRow(hours: seq<HourRecord>, i: nat)
    requires i < |AnalyzeHourlyUsage(hours)|
    ensures AnalyzeHourlyUsage(hours)[i].cnt == HourSum(hours, AnalyzeHourlyUsage(hours)[i].hr)
    ensures AnalyzeHourlyUsage(hours)[i].hr in HoursOf(hours)
  {
    var es := HourEntries(hours);
    var gs := GroupSum(es);
    var j := HourlyRowKey(hours, i);
    GroupSumCorrect(es);
    HourEntriesFacts(hours, hours[j].hr);
    HoursOfMember(hours, hours[j].hr);
  }

  /** The hours of the hourly summary are exactly the hours of the input. */
  lemma HourlyHours(hours: seq<HourRecord>)
    ensures TotalHours(AnalyzeHourlyUsage(hours)) == HoursOf(hours)
  {
    var r := AnalyzeHourlyUsage(hours);
    forall h ensures h in TotalHours(r) <==> h in HoursOf(hours) {
      TotalHoursMember(r, h);
      HoursOfMember(hours, h);
      if h in TotalHours(r) {
        var i :| 0 <= i < |r| && r[i].hr == h;
        HourlyRow(hours, i);
      }
      if h in HoursOf(hours) {
        var j :| 0 <= j < |hours| && hours[j].hr == h;
        var i := HourlyRowOfHour(hours, j);
      }
    }
  }

  /** `analyze_hourly_usage` yields the hours present in the input, each
      once, in ascending order, each with the sum of its counts; the rows
      account for every ride, and an empty table yields no rows. */
  lemma AnalyzeHourlyUsageSpec(hours: seq<HourRecord>)
    ensures forall i, i' :: 0 <= i < i' < |AnalyzeHourlyUsage(hours)| ==>
              AnalyzeHourlyUsage(hours)[i].hr < AnalyzeHourlyUsage(hours)[i'].hr
    ensures forall i :: 0 <= i < |AnalyzeHourlyUsage(hours)| ==>
              AnalyzeHourlyUsage(hours)[i].cnt == HourSum(hours, AnalyzeHourlyUsage(hours)[i].hr)
    ensures TotalHours(AnalyzeHourlyUsage(hours)) == HoursOf(hours)
    ensures HourTotalsCnt(AnalyzeHourlyUsage(hours)) == SumHourCnt(hours)
    ensures |AnalyzeHourlyUsage(hours)| == 0 <==> |hours| == 0
  {
    var es := HourEntries(hours);
    var gs := GroupSum(es);
    var r := AnalyzeHourlyUsage(hours);
    GroupSumCorrect(es);
    HourEntriesFacts(hours, 0);
    HourTotalsFacts(gs);
    forall i, i' | 0 <= i < i' < |r| ensures r[i].hr < r[i'].hr {
      HourlyOrder(hours, i, i');
    }
    forall i | 0 <= i < |r| ensures r[i].cnt == HourSum(hours, r[i].hr) {
      HourlyRow(hours, i);
    }
    HourlyHours(hours);
  }

}
