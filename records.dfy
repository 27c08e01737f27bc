/** The two tables the dashboard works on, one record per row, and the
    column sums the aggregations are checked against.

    Dates are day ordinals (the parsed `dteday` column); every code column
    is an integer as read from the file, so codes outside their documented
    range are representable and the aggregations must cope with them. */
module Records {

  /** A row of the daily table. */
  datatype DayRecord = DayRecord(
    date: int,
    season: int,
    yr: int,
    mnth: int,
    holiday: int,
    workingday: int,
    weathersit: int,
    casual: nat,
    registered: nat,
    cnt: nat)

  /** A row of the hourly table: the daily columns plus the hour of day. */
  datatype HourRecord = HourRecord(
    date: int,
    season: int,
    yr: int,
    mnth: int,
    hr: int,
    holiday: int,
    workingday: int,
    weathersit: int,
    casual: nat,
    registered: nat,
    cnt: nat)

  function DayDate(d: DayRecord): int { d.date }

  function HourDate(h: HourRecord): int { h.date }

  /** `data["casual"].sum()` */
  function SumCasual(days: seq<DayRecord>): nat
  {
    if |days| == 0 then 0 else days[0].casual + SumCasual(days[1..])
  }

  /** `data["registered"].sum()` */
  function SumRegistered(days: seq<DayRecord>): nat
  {
    if |days| == 0 then 0 else days[0].registered + SumRegistered(days[1..])
  }

  /** `data["cnt"].sum()` over the daily table. */
  function SumCnt(days: seq<DayRecord>): nat
  {
    if |days| == 0 then 0 else days[0].cnt + SumCnt(days[1..])
  }

  /** `data["cnt"].sum()` over the hourly table. */
  function SumHourCnt(hours: seq<HourRecord>): nat
  {
    if |hours| == 0 then 0 else hours[0].cnt + SumHourCnt(hours[1..])
  }

  /** The total count recorded for hour `h` of the day. */
  function HourSum(hours: seq<HourRecord>, h: int): nat
  {
    if |hours| == 0 then 0
    else (if hours[0].hr == h then hours[0].cnt else 0) + HourSum(hours[1..], h)
  }

  /** The documented invariant of the daily table: every day's total is
      its casual plus its registered riders. */
  predicate CountsConsistent(days: seq<DayRecord>)
  {
    forall i :: 0 <= i < |days| ==> days[i].cnt == days[i].casual + days[i].registered
  }

  /** The documented range of the year code: 0 for 2011, 1 for 2012. */
  predicate ValidYears(days: seq<DayRecord>)
  {
    forall i :: 0 <= i < |days| ==> days[i].yr == 0 || days[i].yr == 1
  }

}
