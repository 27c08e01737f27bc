/** The weather section of the dashboard: the (weathersit, yr) summary is
    grouped again by its weather condition label, merging the two years.

    `groupby("weather_condition")` drops the rows whose label is missing
    (pandas' default `dropna=True`), so a weather code outside 1..4 adds
    nothing to the summary. */
module Weather {
  import opened Wrappers
  import opened Keys
  import opened GroupBy
  import opened Records
  import opened Labels
  import opened Aggregates

  datatype WeatherTotal = WeatherTotal(condition: string, cnt: nat)

  /** The labelled rows of a summary projected onto ([condition], cnt, one
      row). */
  function LabelEntries(r: seq<CodeYearRow>): seq<Group>
  {
    if |r| == 0 then []
    else
      (if r[0].name.Some? then [Group([Text(r[0].name.value)], r[0].cnt, 1)] else [])
      + LabelEntries(r[1..])
  }

  /** The string of a one-string key. */
  function TextOf(k: Key): string
  {
    if |k| > 0 && k[0].Text? then k[0].s else ""
  }

  function WeatherTotals(gs: seq<Group>): seq<WeatherTotal>
  {
    if |gs| == 0 then [] else [WeatherTotal(TextOf(gs[0].key), gs[0].total)] + WeatherTotals(gs[1..])
  }

  /** `weather_usage.groupby("weather_condition")["cnt"].sum().reset_index()` */
  function RegroupByCondition(r: seq<CodeYearRow>): seq<WeatherTotal>
  {
    WeatherTotals(GroupSum(LabelEntries(r)))
  }

  /** The table the dashboard shows for the daily table `days`. */
  function WeatherSummary(days: seq<DayRecord>): seq<WeatherTotal>
  {
    RegroupByCondition(SummarizeWeatherUsage(days))
  }

  // The reference meaning, stated on the daily table.

  /** Weather code `code` has a label and the label satisfies `q`. */
  predicate LabelSatisfies(code: int, q: string -> bool)
  {
    WeatherName(code).Some? && q(WeatherName(code).value)
  }

  function IsCondition(n: string): string -> bool
  {
    s => s == n
  }

  function AnyCondition(): string -> bool
  {
    s => true
  }

  /** The sum of `cnt` over the days whose weather label satisfies `q`. */
  function DaysLabelCnt(days: seq<DayRecord>, q: string -> bool): nat
  {
    if |days| == 0 then 0
    else (if LabelSatisfies(days[0].weathersit, q) then days[0].cnt else 0) + DaysLabelCnt(days[1..], q)
  }

  /** The rides on days of weather condition `n`. */
  function ConditionCnt(days: seq<DayRecord>, n: string): nat
  {
    DaysLabelCnt(days, IsCondition(n))
  }

  /** The weather conditions of the days of the table. */
  function DayConditions(days: seq<DayRecord>): set<string>
  {
    if |days| == 0 then {}
    else
      (if WeatherName(days[0].weathersit).Some? then {WeatherName(days[0].weathersit).value} else {})
      + DayConditions(days[1..])
  }

  /** The conditions of a weather summary. */
  function Conditions(r: seq<WeatherTotal>): set<string>
  {
    if |r| == 0 then {} else {r[0].condition} + Conditions(r[1..])
  }

  function WeatherTotalsCnt(r: seq<WeatherTotal>): nat
  {
    if |r| == 0 then 0 else r[0].cnt + WeatherTotalsCnt(r[1..])
  }

  /** Every day has one of the four documented weather codes. */
  predicate ValidWeather(days: seq<DayRecord>)
  {
    forall j :: 0 <= j < |days| ==> 1 <= days[j].weathersit <= 4
  }

  // The regroup, step by step.

  /** The sum of `cnt` over the rows of a summary whose label satisfies `q`. */
  function RowsLabelCnt(r: seq<CodeYearRow>, q: string -> bool): nat
  {
    if |r| == 0 then 0
    else (if r[0].name.Some? && q(r[0].name.value) then r[0].cnt else 0) + RowsLabelCnt(r[1..], q)
  }

  /** The key predicate of a (weathersit, yr) group whose label satisfies `q`. */
  function KeyLabel(q: string -> bool): Key -> bool
  {
    k => LabelSatisfies(Component(k, 0), q)
  }

  lemma {:induction false} LabelEntriesKeys(r: seq<CodeYearRow>, k: Key)
    ensures k in KeySet(LabelEntries(r)) <==>
      exists m :: 0 <= m < |r| && r[m].name.Some? && k == [Text(r[m].name.value)]
  {
    if |r| > 0 {
      LabelEntriesKeys(r[1..], k);
      LabelEntriesCons(r);
      if k in KeySet(LabelEntries(r[1..])) {
        var m :| 0 <= m < |r[1..]| && r[1..][m].name.Some? && k == [Text(r[1..][m].name.value)];
        assert r[m + 1] == r[1..][m];
      }
      if exists m :: 0 <= m < |r| && r[m].name.Some? && k == [Text(r[m].name.value)] {
        var m :| 0 <= m < |r| && r[m].name.Some? && k == [Text(r[m].name.value)];
        if m > 0 { assert r[1..][m - 1] == r[m]; }
      }
    }
  }

  lemma {:induction false} LabelEntriesSums(r: seq<CodeYearRow>, n: string)
    ensures SumWhere(LabelEntries(r), [Text(n)]) == RowsLabelCnt(r, IsCondition(n))
    ensures Total(LabelEntries(r)) == RowsLabelCnt(r, AnyCondition())
  {
    if |r| > 0 {
      LabelEntriesSums(r[1..], n);
      LabelEntriesCons(r);
      if r[0].name.Some? {
        assert [Text(r[0].name.value)] == [Text(n)] <==> r[0].name.value == n;
      }
    }
  }

  lemma LabelEntriesCons(r: seq<CodeYearRow>)
    requires |r| > 0
    ensures r[0].name.Some? ==> LabelEntries(r)[0] == Group([Text(r[0].name.value)], r[0].cnt, 1)
    ensures r[0].name.Some? ==> LabelEntries(r)[1..] == LabelEntries(r[1..])
    ensures r[0].name.None? ==> LabelEntries(r) == LabelEntries(r[1..])
  {
    if r[0].name.Some? {
      assert LabelEntries(r) == [Group([Text(r[0].name.value)], r[0].cnt, 1)] + LabelEntries(r[1..]);
    } else {
      assert LabelEntries(r) == [] + LabelEntries(r[1..]);
    }
  }

  lemma {:induction false} CodeYearRowsLabelCnt(gs: seq<Group>, q: string -> bool)
    ensures RowsLabelCnt(CodeYearRows(gs, Weathersit), q) == SumIf(gs, KeyLabel(q))
  {
    if |gs| > 0 {
      CodeYearRowsLabelCnt(gs[1..], q);
    }
  }

  lemma {:induction false} DayEntriesLabelCnt(days: seq<DayRecord>, q: string -> bool)
    ensures SumIf(DayEntries(days, [Weathersit, Yr]), KeyLabel(q)) == DaysLabelCnt(days, q)
  {
    if |days| > 0 {
      PairDayKey(days[0], Weathersit, Yr);
      DayEntriesLabelCnt(days[1..], q);
    }
  }

  /** The rows of the (weathersit, yr) summary whose label satisfies `q`
      add up to the days whose label does. */
  lemma WeatherRowsCnt(days: seq<DayRecord>, q: string -> bool)
    ensures RowsLabelCnt(SummarizeWeatherUsage(days), q) == DaysLabelCnt(days, q)
  {
    var es := DayEntries(days, [Weathersit, Yr]);
    CodeYearRowsLabelCnt(GroupSum(es), q);
    GroupSumSumIf(es, KeyLabel(q));
    DayEntriesLabelCnt(days, q);
  }

  lemma {:induction false} WeatherTotalsFacts(gs: seq<Group>)
    ensures |WeatherTotals(gs)| == |gs|
    ensures forall i :: 0 <= i < |gs| ==> WeatherTotals(gs)[i] == WeatherTotal(TextOf(gs[i].key), gs[i].total)
    ensures WeatherTotalsCnt(WeatherTotals(gs)) == Total(gs)
  {
    if |gs| > 0 {
      WeatherTotalsFacts(gs[1..]);
      var r := WeatherTotals(gs);
      forall i | 1 <= i < |gs| ensures r[i] == WeatherTotal(TextOf(gs[i].key), gs[i].total) {
        assert r[i] == r[1..][i - 1];
        assert gs[i] == gs[1..][i - 1];
      }
    }
  }

  lemma {:induction false} DayConditionsMember(days: seq<DayRecord>, n: string)
    ensures n in DayConditions(days) <==>
      exists j :: 0 <= j < |days| && WeatherName(days[j].weathersit) == Some(n)
  {
    if |days| > 0 {
      DayConditionsMember(days[1..], n);
      if n in DayConditions(days[1..]) {
        var j :| 0 <= j < |days[1..]| && WeatherName(days[1..][j].weathersit) == Some(n);
        assert days[j + 1] == days[1..][j];
      }
      if exists j :: 0 <= j < |days| && WeatherName(days[j].weathersit) == Some(n) {
        var j :| 0 <= j < |days| && WeatherName(days[j].weathersit) == Some(n);
        if j > 0 { assert days[1..][j - 1] == days[j]; }
      }
    }
  }

  lemma {:induction false} ConditionsMember(r: seq<WeatherTotal>, n: string)
    ensures n in Conditions(r) <==> exists i :: 0 <= i < |r| && r[i].condition == n
  {
    if |r| > 0 {
      ConditionsMember(r[1..], n);
      if n in Conditions(r[1..]) {
        var i :| 0 <= i < |r[1..]| && r[1..][i].condition == n;
        assert r[i + 1] == r[1..][i];
      }
      if exists i :: 0 <= i < |r| && r[i].condition == n {
        var i :| 0 <= i < |r| && r[i].condition == n;
        if i > 0 { assert r[1..][i - 1] == r[i]; }
      }
    }
  }

  /** Row i of the summary comes from a labelled row m of the
      (weathersit, yr) summary. */
  lemma WeatherRowKey(days: seq<DayRecord>, i: nat) returns (m: nat)
    requires i < |WeatherSummary(days)|
    ensures m < |SummarizeWeatherUsage(days)|
    ensures SummarizeWeatherUsage(days)[m].name.Some?
    ensures |GroupSum(LabelEntries(SummarizeWeatherUsage(days)))| == |WeatherSummary(days)|
    ensures GroupSum(LabelEntries(SummarizeWeatherUsage(days)))[i].key
      == [Text(SummarizeWeatherUsage(days)[m].name.value)]
    ensures WeatherSummary(days)[i]
      == WeatherTotal(SummarizeWeatherUsage(days)[m].name.value,
                      GroupSum(LabelEntries(SummarizeWeatherUsage(days)))[i].total)
  {
    var w := SummarizeWeatherUsage(days);
    var es := LabelEntries(w);
    var gs := GroupSum(es);
    WeatherTotalsFacts(gs);
    GroupSumCorrect(es);
    KeySetMember(gs, gs[i].key);
    LabelEntriesKeys(w, gs[i].key);
    m :| 0 <= m < |w| && w[m].name.Some? && gs[i].key == [Text(w[m].name.value)];
  }

  /** A labelled row of the (weathersit, yr) summary has the label of some
      day. */
  lemma LabelOfDay(days: seq<DayRecord>, m: nat) returns (j: nat)
    requires m < |SummarizeWeatherUsage(days)|
    requires SummarizeWeatherUsage(days)[m].name.Some?
    ensures j < |days|
    ensures WeatherName(days[j].weathersit) == SummarizeWeatherUsage(days)[m].name
  {
    j := SummaryRowKey(days, Weathersit, m);
  }

  lemma WeatherOrder(days: seq<DayRecord>, i: nat, i': nat)
    requires i < i' < |WeatherSummary(days)|
    ensures TextLt(WeatherSummary(days)[i].condition, WeatherSummary(days)[i'].condition)
  {
    var gs := GroupSum(LabelEntries(SummarizeWeatherUsage(days)));
    var m := WeatherRowKey(days, i);
    var m' := WeatherRowKey(days, i');
    GroupSumInvariant(LabelEntries(SummarizeWeatherUsage(days)));
    SortedPairwise(gs, i, i');
    TextKeyLt(WeatherSummary(days)[i].condition, WeatherSummary(days)[i'].condition);
  }

  lemma WeatherRow(days: seq<DayRecord>, i: nat)
    requires i < |WeatherSummary(days)|
    ensures WeatherSummary(days)[i].cnt == ConditionCnt(days, WeatherSummary(days)[i].condition)
    ensures WeatherSummary(days)[i].condition in DayConditions(days)
  {
    var w := SummarizeWeatherUsage(days);
    var m := WeatherRowKey(days, i);
    var n := w[m].name.value;
    GroupSumCorrect(LabelEntries(w));
    LabelEntriesSums(w, n);
    WeatherRowsCnt(days, IsCondition(n));
    var j := LabelOfDay(days, m);
    DayConditionsMember(days, n);
  }

  /** The label of every labelled day is a key of the regroup. */
  lemma LabelKeyOfDay(days: seq<DayRecord>, j: nat)
    requires j < |days|
    requires WeatherName(days[j].weathersit).Some?
    ensures [Text(WeatherName(days[j].weathersit).value)] in KeySet(LabelEntries(SummarizeWeatherUsage(days)))
  {
    var w := SummarizeWeatherUsage(days);
    var m := SummaryRowOfDay(days, Weathersit, j);
    LabelEntriesKeys(w, [Text(WeatherName(days[j].weathersit).value)]);
  }

  /** Every weather condition of the days has a row. */
  lemma WeatherRowOfDay(days: seq<DayRecord>, j: nat) returns (i: nat)
    requires j < |days|
    requires WeatherName(days[j].weathersit).Some?
    ensures i < |WeatherSummary(days)|
    ensures WeatherSummary(days)[i].condition == WeatherName(days[j].weathersit).value
  {
    var w := SummarizeWeatherUsage(days);
    var es := LabelEntries(w);
    var gs := GroupSum(es);
    var n := WeatherName(days[j].weathersit).value;
    LabelKeyOfDay(days, j);
    GroupSumCorrect(es);
    KeySetMember(gs, [Text(n)]);
    i :| 0 <= i < |gs| && gs[i].key == [Text(n)];
    WeatherTotalsFacts(gs);
  }

  lemma WeatherConditions(days: seq<DayRecord>)
    ensures Conditions(WeatherSummary(days)) == DayConditions(days)
  {
    var r := WeatherSummary(days);
    forall n ensures n in Conditions(r) <==> n in DayConditions(days) {
      ConditionsMember(r, n);
      DayConditionsMember(days, n);
      if n in Conditions(r) {
        var i :| 0 <= i < |r| && r[i].condition == n;
        WeatherRow(days, i);
      }
      if n in DayConditions(days) {
        var j :| 0 <= j < |days| && WeatherName(days[j].weathersit) == Some(n);
        var i := WeatherRowOfDay(days, j);
      }
    }
  }

  lemma {:induction false} ValidWeatherTotal(days: seq<DayRecord>)
    requires ValidWeather(days)
    ensures DaysLabelCnt(days, AnyCondition()) == SumCnt(days)
  {
    if |days| > 0 {
      assert ValidWeather(days[1..]) by {
        forall j | 0 <= j < |days[1..]| ensures 1 <= days[1..][j].weathersit <= 4 {
          assert days[1..][j] == days[j + 1];
        }
      }
      ValidWeatherTotal(days[1..]);
    }
  }

  /** The weather table has one row per weather condition of the days, in
      ascending order of the condition's name, each holding the rides of
      the days with that condition over both years; together the rows hold
      the rides of the labelled days, which are all the rides when every
      weather code is one of the four documented ones. */
  lemma WeatherSummarySpec(days: seq<DayRecord>)
    ensures forall i, i' :: 0 <= i < i' < |WeatherSummary(days)| ==>
              TextLt(WeatherSummary(days)[i].condition, WeatherSummary(days)[i'].condition)
    ensures forall i :: 0 <= i < |WeatherSummary(days)| ==>
              WeatherSummary(days)[i].cnt == ConditionCnt(days, WeatherSummary(days)[i].condition)
    ensures Conditions(WeatherSummary(days)) == DayConditions(days)
    ensures WeatherTotalsCnt(WeatherSummary(days)) == DaysLabelCnt(days, AnyCondition())
    ensures ValidWeather(days) ==> WeatherTotalsCnt(WeatherSummary(days)) == SumCnt(days)
  {
    var w := SummarizeWeatherUsage(days);
    var r := WeatherSummary(days);
    forall i, i' | 0 <= i < i' < |r| ensures TextLt(r[i].condition, r[i'].condition) {
      WeatherOrder(days, i, i');
    }
    forall i | 0 <= i < |r| ensures r[i].cnt == ConditionCnt(days, r[i].condition) {
      WeatherRow(days, i);
    }
    WeatherConditions(days);
    GroupSumCorrect(LabelEntries(w));
    WeatherTotalsFacts(GroupSum(LabelEntries(w)));
    LabelEntriesSums(w, "");
    WeatherRowsCnt(days, AnyCondition());
    if ValidWeather(days) {
      ValidWeatherTotal(days);
    }
  }

}
