/** The two tables of average usage the narrative text is drawn from:
    `day_df.groupby(["holiday", "workingday"])["cnt"].mean()` with its
    three-way day-type label and the holiday-versus-working-day verdict,
    and `day_df.groupby("season")["cnt"].mean()` with its season names and
    the season of highest average usage. Means are exact quotients. */
module Means {
  import opened Wrappers
  import opened Keys
  import opened GroupBy
  import opened Records
  import opened Labels
  import opened Aggregates
  import opened ArgMax

  /** The sum of `cnt` over the days whose column `c` holds `v`. */
  function ColCnt(days: seq<DayRecord>, c: DayColumn, v: int): nat
  {
    if |days| == 0 then 0
    else (if Code(days[0], c) == v then days[0].cnt else 0) + ColCnt(days[1..], c, v)
  }

  /** The number of days whose column `c` holds `v`. */
  function ColRows(days: seq<DayRecord>, c: DayColumn, v: int): nat
  {
    if |days| == 0 then 0
    else (if Code(days[0], c) == v then 1 else 0) + ColRows(days[1..], c, v)
  }

  /** The sum of `cnt` over the days with (holiday, workingday) = (h, w). */
  function FlagsCnt(days: seq<DayRecord>, h: int, w: int): nat
  {
    if |days| == 0 then 0
    else
      (if days[0].holiday == h && days[0].workingday == w then days[0].cnt else 0)
      + FlagsCnt(days[1..], h, w)
  }

  /** The number of days with (holiday, workingday) = (h, w). */
  function FlagsRows(days: seq<DayRecord>, h: int, w: int): nat
  {
    if |days| == 0 then 0
    else
      (if days[0].holiday == h && days[0].workingday == w then 1 else 0)
      + FlagsRows(days[1..], h, w)
  }

  /** The mean of `cnt` over the days whose column `c` holds `v` (0 when
      there are none). */
  function ColMeanOf(days: seq<DayRecord>, c: DayColumn, v: int): real
  {
    if ColRows(days, c, v) == 0 then 0.0
    else ColCnt(days, c, v) as real / ColRows(days, c, v) as real
  }

  /** The mean of `cnt` over the days with flags (h, w) (0 when there are none). */
  function FlagsMeanOf(days: seq<DayRecord>, h: int, w: int): real
  {
    if FlagsRows(days, h, w) == 0 then 0.0
    else FlagsCnt(days, h, w) as real / FlagsRows(days, h, w) as real
  }

  /** The mean of a group; every group of a group-by has a row, so the
      0 for an empty group is never reported. */
  function Mean(g: Group): real
  {
    if g.size == 0 then 0.0 else g.total as real / g.size as real
  }

  lemma {:induction false} SeasonKeyCnt(days: seq<DayRecord>, s: int)
    ensures KeyCnt(days, [Season], [Int(s)]) == ColCnt(days, Season, s)
    ensures KeyRows(days, [Season], [Int(s)]) == ColRows(days, Season, s)
  {
    if |days| > 0 {
      SingleDayKey(days[0], Season);
      SeasonKeyCnt(days[1..], s);
    }
  }

  lemma {:induction false} FlagsKeyCnt(days: seq<DayRecord>, h: int, w: int)
    ensures KeyCnt(days, [Holiday, Workingday], [Int(h), Int(w)]) == FlagsCnt(days, h, w)
    ensures KeyRows(days, [Holiday, Workingday], [Int(h), Int(w)]) == FlagsRows(days, h, w)
  {
    if |days| > 0 {
      PairDayKey(days[0], Holiday, Workingday);
      FlagsKeyCnt(days[1..], h, w);
    }
  }

  /** Every group of a day-level group-by has at least one day. */
  lemma DayGroupsNonEmpty(days: seq<DayRecord>, cols: seq<DayColumn>)
    ensures forall i :: 0 <= i < |GroupSum(DayEntries(days, cols))| ==>
      GroupSum(DayEntries(days, cols))[i].size >= 1
  {
    DayEntriesFacts(days, cols, []);
    GroupSizesPositive(DayEntries(days, cols));
  }

  // ---------------------------------------------------------------------
  // Average usage by season

  /** A row of `groupby("season")["cnt"].mean().reset_index()`. */
  datatype CodeMean = CodeMean(code: int, cnt: real)

  /** A row of the same table once the season code is replaced by its name. */
  datatype SeasonMean = SeasonMean(season: Option<string>, cnt: real)

  function CodeMeans(gs: seq<Group>): seq<CodeMean>
  {
    if |gs| == 0 then [] else [CodeMean(Component(gs[0].key, 0), Mean(gs[0]))] + CodeMeans(gs[1..])
  }

  /** `day_df.groupby("season")["cnt"].mean().reset_index()` */
  function SeasonMeansByCode(days: seq<DayRecord>): seq<CodeMean>
  {
    CodeMeans(GroupSum(DayEntries(days, [Season])))
  }

  function NameSeasons(t: seq<CodeMean>): seq<SeasonMean>
  {
    if |t| == 0 then [] else [SeasonMean(SeasonName(t[0].code), t[0].cnt)] + NameSeasons(t[1..])
  }

  /** `season_usage["season"] = season_usage["season"].map(...)` */
  function SeasonUsage(days: seq<DayRecord>): seq<SeasonMean>
  {
    NameSeasons(SeasonMeansByCode(days))
  }

  lemma {:induction false} CodeMeansAt(gs: seq<Group>)
    ensures |CodeMeans(gs)| == |gs|
    ensures forall i :: 0 <= i < |gs| ==> CodeMeans(gs)[i] == CodeMean(Component(gs[i].key, 0), Mean(gs[i]))
  {
    if |gs| > 0 {
      CodeMeansAt(gs[1..]);
      var t := CodeMeans(gs);
      forall i | 1 <= i < |gs| ensures t[i] == CodeMean(Component(gs[i].key, 0), Mean(gs[i])) {
        assert t[i] == t[1..][i - 1];
        assert gs[i] == gs[1..][i - 1];
      }
    }
  }

  lemma {:induction false} NameSeasonsAt(t: seq<CodeMean>)
    ensures |NameSeasons(t)| == |t|
    ensures forall i :: 0 <= i < |t| ==> NameSeasons(t)[i] == SeasonMean(SeasonName(t[i].code), t[i].cnt)
  {
    if |t| > 0 {
      NameSeasonsAt(t[1..]);
      var r := NameSeasons(t);
      forall i | 1 <= i < |t| ensures r[i] == SeasonMean(SeasonName(t[i].code), t[i].cnt) {
        assert r[i] == r[1..][i - 1];
        assert t[i] == t[1..][i - 1];
      }
    }
  }

  /** The codes a table's column `c` holds. */
  function CodeValues(days: seq<DayRecord>, c: DayColumn): set<int>
  {
    if |days| == 0 then {} else {Code(days[0], c)} + CodeValues(days[1..], c)
  }

  lemma {:induction false} CodeValuesMember(days: seq<DayRecord>, c: DayColumn, x: int)
    ensures x in CodeValues(days, c) <==> exists j :: 0 <= j < |days| && Code(days[j], c) == x
  {
    if |days| > 0 {
      CodeValuesMember(days[1..], c, x);
      if x in CodeValues(days[1..], c) {
        var j :| 0 <= j < |days[1..]| && Code(days[1..][j], c) == x;
        assert days[j + 1] == days[1..][j];
      }
      if exists j :: 0 <= j < |days| && Code(days[j], c) == x {
        var j :| 0 <= j < |days| && Code(days[j], c) == x;
        if j > 0 { assert days[1..][j - 1] == days[j]; }
      }
    }
  }

  /** The season codes of a mean table. */
  function MeanCodes(t: seq<CodeMean>): set<int>
  {
    if |t| == 0 then {} else {t[0].code} + MeanCodes(t[1..])
  }

  lemma {:induction false} MeanCodesMember(t: seq<CodeMean>, x: int)
    ensures x in MeanCodes(t) <==> exists i :: 0 <= i < |t| && t[i].code == x
  {
    if |t| > 0 {
      MeanCodesMember(t[1..], x);
      if x in MeanCodes(t[1..]) {
        var i :| 0 <= i < |t[1..]| && t[1..][i].code == x;
        assert t[i + 1] == t[1..][i];
      }
      if exists i :: 0 <= i < |t| && t[i].code == x {
        var i :| 0 <= i < |t| && t[i].code == x;
        if i > 0 { assert t[1..][i - 1] == t[i]; }
      }
    }
  }

  /** Row i of the season table: a season present in the data, with its mean. */
  lemma SeasonRow(days: seq<DayRecord>, i: nat)
    requires i < |SeasonMeansByCode(days)|
    ensures exists j :: 0 <= j < |days| && days[j].season == SeasonMeansByCode(days)[i].code
    ensures SeasonMeansByCode(days)[i].cnt == ColMeanOf(days, Season, SeasonMeansByCode(days)[i].code)
  {
    var es := DayEntries(days, [Season]);
    var gs := GroupSum(es);
    DayGroupsNonEmpty(days, [Season]);
    CodeMeansAt(gs);
    GroupSumCorrect(es);
    GroupKeyFromDay(days, [Season], i);
    var j :| 0 <= j < |days| && DayKey(days[j], [Season]) == gs[i].key;
    SingleDayKey(days[j], Season);
    DayEntriesFacts(days, [Season], gs[i].key);
    SeasonKeyCnt(days, days[j].season);
  }

  lemma SeasonOrder(days: seq<DayRecord>, i: nat, i': nat)
    requires i < i' < |SeasonMeansByCode(days)|
    ensures SeasonMeansByCode(days)[i].code < SeasonMeansByCode(days)[i'].code
  {
    var es := DayEntries(days, [Season]);
    var gs := GroupSum(es);
    CodeMeansAt(gs);
    GroupSumInvariant(es);
    SortedPairwise(gs, i, i');
    GroupKeyFromDay(days, [Season], i);
    GroupKeyFromDay(days, [Season], i');
    var j :| 0 <= j < |days| && DayKey(days[j], [Season]) == gs[i].key;
    var j' :| 0 <= j' < |days| && DayKey(days[j'], [Season]) == gs[i'].key;
    SingleDayKey(days[j], Season);
    SingleDayKey(days[j'], Season);
    SingleKeyLt(days[j].season, days[j'].season);
  }

  lemma SeasonCovers(days: seq<DayRecord>, j: nat)
    requires j < |days|
    ensures exists i :: 0 <= i < |SeasonMeansByCode(days)| && SeasonMeansByCode(days)[i].code == days[j].season
  {
    var gs := GroupSum(DayEntries(days, [Season]));
    CodeMeansAt(gs);
    DayHasGroup(days, [Season], j);
    var i :| 0 <= i < |gs| && gs[i].key == DayKey(days[j], [Season]);
    SingleDayKey(days[j], Season);
    assert SeasonMeansByCode(days)[i].code == days[j].season;
  }

  /** The seasons of the mean table are exactly the seasons of the data. */
  lemma SeasonCodes(days: seq<DayRecord>)
    ensures MeanCodes(SeasonMeansByCode(days)) == CodeValues(days, Season)
  {
    var t := SeasonMeansByCode(days);
    forall x ensures x in MeanCodes(t) <==> x in CodeValues(days, Season) {
      MeanCodesMember(t, x);
      CodeValuesMember(days, Season, x);
      if x in MeanCodes(t) {
        var i :| 0 <= i < |t| && t[i].code == x;
        SeasonRow(days, i);
      }
      if x in CodeValues(days, Season) {
        var j :| 0 <= j < |days| && Code(days[j], Season) == x;
        SeasonCovers(days, j);
      }
    }
  }

  lemma {:induction false} CodeValuesEmpty(days: seq<DayRecord>, c: DayColumn)
    ensures CodeValues(days, c) == {} <==> |days| == 0
  {
    if |days| > 0 {
      assert Code(days[0], c) in CodeValues(days, c);
    }
  }

  lemma {:induction false} MeanCodesEmpty(t: seq<CodeMean>)
    ensures MeanCodes(t) == {} <==> |t| == 0
  {
    if |t| > 0 {
      assert t[0].code in MeanCodes(t);
    }
  }

  /** The season-mean table has one row per season present, in strictly
      ascending code order, each with the mean count of its days; the named
      table carries the same means in the same order, each with its
      season's name; an empty table yields no rows. */
  lemma SeasonUsageSpec(days: seq<DayRecord>)
    ensures forall i, i' :: 0 <= i < i' < |SeasonMeansByCode(days)| ==>
              SeasonMeansByCode(days)[i].code < SeasonMeansByCode(days)[i'].code
    ensures forall i :: 0 <= i < |SeasonMeansByCode(days)| ==>
              SeasonMeansByCode(days)[i].cnt == ColMeanOf(days, Season, SeasonMeansByCode(days)[i].code)
    ensures MeanCodes(SeasonMeansByCode(days)) == CodeValues(days, Season)
    ensures |SeasonMeansByCode(days)| == 0 <==> |days| == 0
    ensures |SeasonUsage(days)| == |SeasonMeansByCode(days)|
    ensures forall i :: 0 <= i < |SeasonUsage(days)| ==>
              SeasonUsage(days)[i] == SeasonMean(SeasonName(SeasonMeansByCode(days)[i].code), SeasonMeansByCode(days)[i].cnt)
  {
    var t := SeasonMeansByCode(days);
    forall i, i' | 0 <= i < i' < |t| ensures t[i].code < t[i'].code {
      SeasonOrder(days, i, i');
    }
    forall i | 0 <= i < |t| ensures t[i].cnt == ColMeanOf(days, Season, t[i].code) {
      SeasonRow(days, i);
    }
    SeasonCodes(days);
    CodeValuesEmpty(days, Season);
    MeanCodesEmpty(t);
    NameSeasonsAt(t);
  }

  function SeasonMeanColumn(r: seq<SeasonMean>): (xs: seq<real>)
    ensures |xs| == |r| && forall i :: 0 <= i < |r| ==> xs[i] == r[i].cnt
  {
    seq(|r|, i requires 0 <= i < |r| => r[i].cnt)
  }

  /** `season_usage.loc[season_usage["cnt"].idxmax()]` */
  function HighestSeason(days: seq<DayRecord>): Option<SeasonMean>
  {
    var r := SeasonUsage(days);
    match IdxMax(SeasonMeanColumn(r))
    case None => None
    case Some(k) => Some(r[k])
  }

  /** Season `s` occurs in the data, no season has a larger mean, and
      every season with a smaller code has a strictly smaller one. */
  predicate IsTopSeason(days: seq<DayRecord>, s: int)
  {
    && s in CodeValues(days, Season)
    && (forall s' :: s' in CodeValues(days, Season) ==> ColMeanOf(days, Season, s') <= ColMeanOf(days, Season, s))
    && (forall s' :: s' in CodeValues(days, Season) && s' < s ==> ColMeanOf(days, Season, s') < ColMeanOf(days, Season, s))
  }

  /** At most one season is the top season. */
  lemma TopSeasonUnique(days: seq<DayRecord>, s: int, s': int)
    requires IsTopSeason(days, s) && IsTopSeason(days, s')
    ensures s == s'
  {
  }

  function CodeMeanColumn(t: seq<CodeMean>): (xs: seq<real>)
    ensures |xs| == |t| && forall i :: 0 <= i < |t| ==> xs[i] == t[i].cnt
  {
    seq(|t|, i requires 0 <= i < |t| => t[i].cnt)
  }

  /** Naming the seasons leaves the mean column as it was. */
  lemma NamedColumn(t: seq<CodeMean>)
    ensures SeasonMeanColumn(NameSeasons(t)) == CodeMeanColumn(t)
  {
    NameSeasonsAt(t);
  }

  /** `idxmax` on the named table picks the row it picks on the table of
      codes. */
  lemma NamedMax(t: seq<CodeMean>, k: nat)
    requires IdxMax(SeasonMeanColumn(NameSeasons(t))) == Some(k)
    ensures IdxMax(CodeMeanColumn(t)) == Some(k)
  {
    NamedColumn(t);
  }

  /** The reported season is the top season, named, with its mean; there
      is none exactly when the table is empty. */
  lemma HighestSeasonSpec(days: seq<DayRecord>)
    ensures HighestSeason(days).None? <==> |days| == 0
    ensures HighestSeason(days).Some? ==>
              exists s :: IsTopSeason(days, s) && HighestSeason(days).value == SeasonMean(SeasonName(s), ColMeanOf(days, Season, s))
  {
    var t := SeasonMeansByCode(days);
    NameSeasonsAt(t);
    SeasonCodes(days);
    CodeValuesEmpty(days, Season);
    MeanCodesEmpty(t);
    if |days| > 0 {
      var k := IdxMax(SeasonMeanColumn(NameSeasons(t))).value;
      NamedMax(t, k);
      var xs := CodeMeanColumn(t);
      var s := t[k].code;
      SeasonRow(days, k);
      CodeValuesMember(days, Season, s);
      forall s' | s' in CodeValues(days, Season)
        ensures ColMeanOf(days, Season, s') <= ColMeanOf(days, Season, s)
        ensures s' < s ==> ColMeanOf(days, Season, s') < ColMeanOf(days, Season, s)
      {
        MeanCodesMember(t, s');
        var i' :| 0 <= i' < |t| && t[i'].code == s';
        SeasonRow(days, i');
        if s' < s && k < i' {
          SeasonOrder(days, k, i');
        }
      }
      assert IsTopSeason(days, s);
      assert HighestSeason(days).value == SeasonMean(SeasonName(s), ColMeanOf(days, Season, s));
    }
  }

  // ---------------------------------------------------------------------
  // Average usage by day type

  /** A row of the holiday/working-day mean table with its `Label`. */
  datatype DayTypeMean = DayTypeMean(holiday: int, workingday: int, cnt: real, name: string)

  function DayTypeMeans(gs: seq<Group>): seq<DayTypeMean>
  {
    if |gs| == 0 then []
    else
      var h := Component(gs[0].key, 0);
      var w := Component(gs[0].key, 1);
      [DayTypeMean(h, w, Mean(gs[0]), DayTypeLabel(h, w))] + DayTypeMeans(gs[1..])
  }

  /** `day_df.groupby(["holiday", "workingday"])["cnt"].mean().reset_index()`
      with the `Label` column added row by row. */
  function HolidayWorkdayUsage(days: seq<DayRecord>): seq<DayTypeMean>
  {
    DayTypeMeans(GroupSum(DayEntries(days, [Holiday, Workingday])))
  }

  lemma {:induction false} DayTypeMeansAt(gs: seq<Group>)
    ensures |DayTypeMeans(gs)| == |gs|
    ensures forall i :: 0 <= i < |gs| ==>
              DayTypeMeans(gs)[i]
              == DayTypeMean(Component(gs[i].key, 0), Component(gs[i].key, 1), Mean(gs[i]),
                             DayTypeLabel(Component(gs[i].key, 0), Component(gs[i].key, 1)))
  {
    if |gs| > 0 {
      DayTypeMeansAt(gs[1..]);
      var t := DayTypeMeans(gs);
      forall i | 1 <= i < |gs|
        ensures t[i] == DayTypeMean(Component(gs[i].key, 0), Component(gs[i].key, 1), Mean(gs[i]),
                                    DayTypeLabel(Component(gs[i].key, 0), Component(gs[i].key, 1)))
      {
        assert t[i] == t[1..][i - 1];
        assert gs[i] == gs[1..][i - 1];
      }
    }
  }

  /** The (holiday, workingday) pairs of the data. */
  function FlagValues(days: seq<DayRecord>): set<(int, int)>
  {
    if |days| == 0 then {} else {(days[0].holiday, days[0].workingday)} + FlagValues(days[1..])
  }

  lemma {:induction false} FlagValuesMember(days: seq<DayRecord>, p: (int, int))
    ensures p in FlagValues(days) <==> exists j :: 0 <= j < |days| && (days[j].holiday, days[j].workingday) == p
  {
    if |days| > 0 {
      FlagValuesMember(days[1..], p);
      if p in FlagValues(days[1..]) {
        var j :| 0 <= j < |days[1..]| && (days[1..][j].holiday, days[1..][j].workingday) == p;
        assert days[j + 1] == days[1..][j];
      }
      if exists j :: 0 <= j < |days| && (days[j].holiday, days[j].workingday) == p {
        var j :| 0 <= j < |days| && (days[j].holiday, days[j].workingday) == p;
        if j > 0 { assert days[1..][j - 1] == days[j]; }
      }
    }
  }

  /** The (holiday, workingday) pairs of a day-type table. */
  function TypePairs(t: seq<DayTypeMean>): set<(int, int)>
  {
    if |t| == 0 then {} else {(t[0].holiday, t[0].workingday)} + TypePairs(t[1..])
  }

  lemma {:induction false} TypePairsMember(t: seq<DayTypeMean>, p: (int, int))
    ensures p in TypePairs(t) <==> exists i :: 0 <= i < |t| && (t[i].holiday, t[i].workingday) == p
  {
    if |t| > 0 {
      TypePairsMember(t[1..], p);
      if p in TypePairs(t[1..]) {
        var i :| 0 <= i < |t[1..]| && (t[1..][i].holiday, t[1..][i].workingday) == p;
        assert t[i + 1] == t[1..][i];
      }
      if exists i :: 0 <= i < |t| && (t[i].holiday, t[i].workingday) == p {
        var i :| 0 <= i < |t| && (t[i].holiday, t[i].workingday) == p;
        if i > 0 { assert t[1..][i - 1] == t[i]; }
      }
    }
  }

  /** The key of row i of the day-type table is the flag pair of some day. */
  lemma DayTypeRowKey(days: seq<DayRecord>, i: nat) returns (j: nat)
    requires i < |HolidayWorkdayUsage(days)|
    ensures j < |days|
    ensures |GroupSum(DayEntries(days, [Holiday, Workingday]))| == |HolidayWorkdayUsage(days)|
    ensures GroupSum(DayEntries(days, [Holiday, Workingday]))[i].key == [Int(days[j].holiday), Int(days[j].workingday)]
    ensures HolidayWorkdayUsage(days)[i].holiday == days[j].holiday
    ensures HolidayWorkdayUsage(days)[i].workingday == days[j].workingday
  {
    var gs := GroupSum(DayEntries(days, [Holiday, Workingday]));
    DayTypeMeansAt(gs);
    GroupKeyFromDay(days, [Holiday, Workingday], i);
    j :| 0 <= j < |days| && DayKey(days[j], [Holiday, Workingday]) == gs[i].key;
    PairDayKey(days[j], Holiday, Workingday);
  }

  lemma DayTypeRow(days: seq<DayRecord>, i: nat)
    requires i < |HolidayWorkdayUsage(days)|
    ensures (HolidayWorkdayUsage(days)[i].holiday, HolidayWorkdayUsage(days)[i].workingday) in FlagValues(days)
    ensures HolidayWorkdayUsage(days)[i].cnt
            == FlagsMeanOf(days, HolidayWorkdayUsage(days)[i].holiday, HolidayWorkdayUsage(days)[i].workingday)
    ensures HolidayWorkdayUsage(days)[i].name
            == DayTypeLabel(HolidayWorkdayUsage(days)[i].holiday, HolidayWorkdayUsage(days)[i].workingday)
  {
    var es := DayEntries(days, [Holiday, Workingday]);
    var gs := GroupSum(es);
    var j := DayTypeRowKey(days, i);
    var h, w := days[j].holiday, days[j].workingday;
    DayGroupsNonEmpty(days, [Holiday, Workingday]);
    DayTypeMeansAt(gs);
    GroupSumCorrect(es);
    DayEntriesFacts(days, [Holiday, Workingday], gs[i].key);
    FlagsKeyCnt(days, h, w);
    assert gs[i].total == FlagsCnt(days, h, w) && gs[i].size == FlagsRows(days, h, w);
    FlagValuesMember(days, (h, w));
  }

  lemma DayTypeOrder(days: seq<DayRecord>, i: nat, i': nat)
    requires i < i' < |HolidayWorkdayUsage(days)|
    ensures || HolidayWorkdayUsage(days)[i].holiday < HolidayWorkdayUsage(days)[i'].holiday
            || (&& HolidayWorkdayUsage(days)[i].holiday == HolidayWorkdayUsage(days)[i'].holiday
                && HolidayWorkdayUsage(days)[i].workingday < HolidayWorkdayUsage(days)[i'].workingday)
  {
    var es := DayEntries(days, [Holiday, Workingday]);
    var gs := GroupSum(es);
    var j := DayTypeRowKey(days, i);
    var j' := DayTypeRowKey(days, i');
    GroupSumInvariant(es);
    SortedPairwise(gs, i, i');
    PairKeyLt(days[j].holiday, days[j].workingday, days[j'].holiday, days[j'].workingday);
  }

  /** Every day has a row of the day-type table with its flags. */
  lemma DayTypeRowOfDay(days: seq<DayRecord>, j: nat) returns (i: nat)
    requires j < |days|
    ensures i < |HolidayWorkdayUsage(days)|
    ensures HolidayWorkdayUsage(days)[i].holiday == days[j].holiday
    ensures HolidayWorkdayUsage(days)[i].workingday == days[j].workingday
  {
    var gs := GroupSum(DayEntries(days, [Holiday, Workingday]));
    DayTypeMeansAt(gs);
    DayHasGroup(days, [Holiday, Workingday], j);
    i :| 0 <= i < |gs| && gs[i].key == DayKey(days[j], [Holiday, Workingday]);
    PairDayKey(days[j], Holiday, Workingday);
  }

  /** The (holiday, workingday) pairs of the day-type table are exactly
      those of the data. */
  lemma DayTypePairs(days: seq<DayRecord>)
    ensures TypePairs(HolidayWorkdayUsage(days)) == FlagValues(days)
  {
    var t := HolidayWorkdayUsage(days);
    forall p ensures p in TypePairs(t) <==> p in FlagValues(days) {
      TypePairsMember(t, p);
      FlagValuesMember(days, p);
      if p in TypePairs(t) {
        var i :| 0 <= i < |t| && (t[i].holiday, t[i].workingday) == p;
        DayTypeRow(days, i);
      }
      if p in FlagValues(days) {
        var j :| 0 <= j < |days| && (days[j].holiday, days[j].workingday) == p;
        var i := DayTypeRowOfDay(days, j);
      }
    }
  }

  lemma {:induction false} FlagValuesEmpty(days: seq<DayRecord>)
    ensures FlagValues(days) == {} <==> |days| == 0
  {
    if |days| > 0 {
      assert (days[0].holiday, days[0].workingday) in FlagValues(days);
    }
  }

  lemma {:induction false} TypePairsEmpty(t: seq<DayTypeMean>)
    ensures TypePairs(t) == {} <==> |t| == 0
  {
    if |t| > 0 {
      assert (t[0].holiday, t[0].workingday) in TypePairs(t);
    }
  }

  /** The day-type table has one row per (holiday, workingday) pair
      present, strictly ascending, each with the mean count of its days and
      its three-way label; an empty table yields no rows. */
  lemma HolidayWorkdayUsageSpec(days: seq<DayRecord>)
    ensures forall i, i' :: 0 <= i < i' < |HolidayWorkdayUsage(days)| ==>
              || HolidayWorkdayUsage(days)[i].holiday < HolidayWorkdayUsage(days)[i'].holiday
              || (&& HolidayWorkdayUsage(days)[i].holiday == HolidayWorkdayUsage(days)[i'].holiday
                  && HolidayWorkdayUsage(days)[i].workingday < HolidayWorkdayUsage(days)[i'].workingday)
    ensures forall i :: 0 <= i < |HolidayWorkdayUsage(days)| ==>
              HolidayWorkdayUsage(days)[i].cnt
              == FlagsMeanOf(days, HolidayWorkdayUsage(days)[i].holiday, HolidayWorkdayUsage(days)[i].workingday)
    ensures forall i :: 0 <= i < |HolidayWorkdayUsage(days)| ==>
              HolidayWorkdayUsage(days)[i].name
              == DayTypeLabel(HolidayWorkdayUsage(days)[i].holiday, HolidayWorkdayUsage(days)[i].workingday)
    ensures TypePairs(HolidayWorkdayUsage(days)) == FlagValues(days)
    ensures |HolidayWorkdayUsage(days)| == 0 <==> |days| == 0
  {
    var t := HolidayWorkdayUsage(days);
    forall i, i' | 0 <= i < i' < |t|
      ensures t[i].holiday < t[i'].holiday || (t[i].holiday == t[i'].holiday && t[i].workingday < t[i'].workingday)
    {
      DayTypeOrder(days, i, i');
    }
    forall i | 0 <= i < |t|
      ensures t[i].cnt == FlagsMeanOf(days, t[i].holiday, t[i].workingday)
      ensures t[i].name == DayTypeLabel(t[i].holiday, t[i].workingday)
    {
      DayTypeRow(days, i);
    }
    DayTypePairs(days);
    FlagValuesEmpty(days);
    TypePairsEmpty(t);
  }

  /** The position of the first row labelled `name`. */
  function FirstNamed(t: seq<DayTypeMean>, name: string): (r: Option<nat>)
    ensures r.None? <==> forall i :: 0 <= i < |t| ==> t[i].name != name
    ensures r.Some? ==> r.value < |t| && t[r.value].name == name
    ensures r.Some? ==> forall i :: 0 <= i < r.value ==> t[i].name != name
  {
    if |t| == 0 then None
    else if t[0].name == name then Some(0)
    else match FirstNamed(t[1..], name)
      case None => None
      case Some(k) => Some(k + 1)
  }

  /** `holiday_avg > working_day_avg`, each the first mean of its label
      (`.values[0]`); no verdict when a label is missing (pandas raises an
      `IndexError` there). */
  function HolidayBeatsWorkingDay(t: seq<DayTypeMean>): Option<bool>
  {
    match (FirstNamed(t, "Holiday"), FirstNamed(t, "Working Day"))
    case (Some(h), Some(w)) => Some(t[h].cnt > t[w].cnt)
    case _ => None
  }

  /** A row labelled "Holiday" exists exactly when the data has a holiday. */
  lemma HolidayRowPresent(days: seq<DayRecord>)
    ensures FirstNamed(HolidayWorkdayUsage(days), "Holiday").Some? <==>
              exists j :: 0 <= j < |days| && days[j].holiday == 1
  {
    var t := HolidayWorkdayUsage(days);
    DayTypePairs(days);
    if FirstNamed(t, "Holiday").Some? {
      var i := FirstNamed(t, "Holiday").value;
      DayTypeRow(days, i);
      TypePairsMember(t, (t[i].holiday, t[i].workingday));
      FlagValuesMember(days, (t[i].holiday, t[i].workingday));
    }
    if exists j :: 0 <= j < |days| && days[j].holiday == 1 {
      var j :| 0 <= j < |days| && days[j].holiday == 1;
      FlagValuesMember(days, (days[j].holiday, days[j].workingday));
      TypePairsMember(t, (days[j].holiday, days[j].workingday));
      var i :| 0 <= i < |t| && (t[i].holiday, t[i].workingday) == (days[j].holiday, days[j].workingday);
      DayTypeRow(days, i);
    }
  }

  /** A row labelled "Working Day" exists exactly when the data has a
      working day that is not a holiday. */
  lemma WorkingDayRowPresent(days: seq<DayRecord>)
    ensures FirstNamed(HolidayWorkdayUsage(days), "Working Day").Some? <==>
              exists j :: 0 <= j < |days| && days[j].holiday != 1 && days[j].workingday == 1
  {
    var t := HolidayWorkdayUsage(days);
    DayTypePairs(days);
    if FirstNamed(t, "Working Day").Some? {
      var i := FirstNamed(t, "Working Day").value;
      DayTypeRow(days, i);
      TypePairsMember(t, (t[i].holiday, t[i].workingday));
      FlagValuesMember(days, (t[i].holiday, t[i].workingday));
    }
    if exists j :: 0 <= j < |days| && days[j].holiday != 1 && days[j].workingday == 1 {
      var j :| 0 <= j < |days| && days[j].holiday != 1 && days[j].workingday == 1;
      FlagValuesMember(days, (days[j].holiday, days[j].workingday));
      TypePairsMember(t, (days[j].holiday, days[j].workingday));
      var i :| 0 <= i < |t| && (t[i].holiday, t[i].workingday) == (days[j].holiday, days[j].workingday);
      DayTypeRow(days, i);
    }
  }

  /** The verdict exists exactly when the data has a holiday and a working
      day that is not a holiday. */
  lemma HolidayVerdictDefined(days: seq<DayRecord>)
    ensures HolidayBeatsWorkingDay(HolidayWorkdayUsage(days)).Some? <==>
              && (exists j :: 0 <= j < |days| && days[j].holiday == 1)
              && (exists j :: 0 <= j < |days| && days[j].holiday != 1 && days[j].workingday == 1)
  {
    HolidayRowPresent(days);
    WorkingDayRowPresent(days);
  }

  /** The flags as the data dictionary describes them: both 0 or 1, and a
      holiday is never a working day. */
  predicate FlagsConsistent(days: seq<DayRecord>)
  {
    forall j :: 0 <= j < |days| ==>
      && (days[j].holiday == 0 || days[j].holiday == 1)
      && (days[j].workingday == 0 || days[j].workingday == 1)
      && (days[j].holiday == 1 ==> days[j].workingday == 0)
  }

  lemma {:induction false} FlagsConsistentTail(days: seq<DayRecord>)
    requires |days| > 0 && FlagsConsistent(days)
    ensures FlagsConsistent(days[1..])
  {
    forall j | 0 <= j < |days[1..]|
      ensures && (days[1..][j].holiday == 0 || days[1..][j].holiday == 1)
              && (days[1..][j].workingday == 0 || days[1..][j].workingday == 1)
              && (days[1..][j].holiday == 1 ==> days[1..][j].workingday == 0)
    {
      assert days[1..][j] == days[j + 1];
    }
  }

  /** With consistent flags the (1, 0) group is every holiday and the
      (0, 1) group every working day. */
  lemma {:induction false} ConsistentGroups(days: seq<DayRecord>)
    requires FlagsConsistent(days)
    ensures FlagsCnt(days, 1, 0) == ColCnt(days, Holiday, 1)
    ensures FlagsRows(days, 1, 0) == ColRows(days, Holiday, 1)
    ensures FlagsCnt(days, 0, 1) == ColCnt(days, Workingday, 1)
    ensures FlagsRows(days, 0, 1) == ColRows(days, Workingday, 1)
  {
    if |days| > 0 {
      FlagsConsistentTail(days);
      ConsistentGroups(days[1..]);
    }
  }

  lemma {:induction false} PresentColCounted(days: seq<DayRecord>, c: DayColumn, j: nat)
    requires j < |days|
    ensures ColRows(days, c, Code(days[j], c)) > 0
  {
    if j > 0 {
      assert days[1..][j - 1] == days[j];
      PresentColCounted(days[1..], c, j - 1);
    }
  }

  /** The reported mean of the first row labelled `name`, for a label
      that only the pair (h, w) carries under consistent flags. */
  lemma NamedRowMean(days: seq<DayRecord>, name: string, h: int, w: int)
    requires FlagsConsistent(days)
    requires FirstNamed(HolidayWorkdayUsage(days), name).Some?
    requires forall a, b :: (a == 0 || a == 1) && (b == 0 || b == 1) && (a == 1 ==> b == 0) ==>
               (DayTypeLabel(a, b) == name <==> a == h && b == w)
    ensures var t := HolidayWorkdayUsage(days);
            var k := FirstNamed(t, name).value;
            t[k].holiday == h && t[k].workingday == w && t[k].cnt == FlagsMeanOf(days, h, w)
  {
    var t := HolidayWorkdayUsage(days);
    var k := FirstNamed(t, name).value;
    DayTypeRow(days, k);
    FlagValuesMember(days, (t[k].holiday, t[k].workingday));
  }

  /** With consistent flags, the verdict compares the mean count of all
      holidays with the mean count of all working days. */
  lemma HolidayVerdictValue(days: seq<DayRecord>)
    requires FlagsConsistent(days)
    requires exists j :: 0 <= j < |days| && days[j].holiday == 1
    requires exists j :: 0 <= j < |days| && days[j].workingday == 1
    ensures HolidayBeatsWorkingDay(HolidayWorkdayUsage(days))
            == Some(ColMeanOf(days, Holiday, 1) > ColMeanOf(days, Workingday, 1))
  {
    var jh :| 0 <= jh < |days| && days[jh].holiday == 1;
    var jw :| 0 <= jw < |days| && days[jw].workingday == 1;
    PresentColCounted(days, Holiday, jh);
    PresentColCounted(days, Workingday, jw);
    ConsistentGroups(days);
    HolidayVerdictDefined(days);
    NamedRowMean(days, "Holiday", 1, 0);
    NamedRowMean(days, "Working Day", 0, 1);
  }

}
