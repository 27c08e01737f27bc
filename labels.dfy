/** The code-to-label tables of the dashboard.

    The year column is rewritten with `Series.replace`, which leaves a value
    that is not in its table unchanged; every label column is built with
    `Series.map`, which turns a code that is not in its table into a
    missing value (here `None`). */
module Labels {
  import opened Wrappers

  /** `replace({0: 2011, 1: 2012})` on the year code. */
  function YearRemap(y: int): (r: int)
    ensures y == 0 ==> r == 2011
    ensures y == 1 ==> r == 2012
    ensures y != 0 && y != 1 ==> r == y
  {
    if y == 0 then 2011 else if y == 1 then 2012 else y
  }

  const MonthNames: seq<string> :=
    ["Jan", "Feb", "Mar", "Apr", "May", "Jun", "Jul", "Aug", "Sep", "Oct", "Nov", "Dec"]

  const SeasonNames: seq<string> := ["Spring", "Summer", "Fall", "Winter"]

  const WeatherNames: seq<string> := ["Clear", "Mist/Cloudy", "Light Rain/Snow", "Heavy Rain/Snow"]

  /** Month 1..12 to its three-letter name. */
  function MonthName(m: int): (r: Option<string>)
    ensures r.Some? <==> 1 <= m <= 12
    ensures r.Some? ==> |r.value| == 3
  {
    if 1 <= m <= 12 then Some(MonthNames[m - 1]) else None
  }

  /** Season 1..4 to Spring, Summer, Fall, Winter. */
  function SeasonName(s: int): (r: Option<string>)
    ensures r.Some? <==> 1 <= s <= 4
  {
    if 1 <= s <= 4 then Some(SeasonNames[s - 1]) else None
  }

  /** Weather situation 1..4 to its condition, clearest first. */
  function WeatherName(w: int): (r: Option<string>)
    ensures r.Some? <==> 1 <= w <= 4
  {
    if 1 <= w <= 4 then Some(WeatherNames[w - 1]) else None
  }

  /** Holiday flag 0/1 to its day-type name. */
  function HolidayName(h: int): (r: Option<string>)
    ensures r.Some? <==> h == 0 || h == 1
  {
    if h == 0 then Some("Non-Holiday") else if h == 1 then Some("Holiday") else None
  }

  /** Working-day flag 0/1 to its day-category name. */
  function WorkdayName(w: int): (r: Option<string>)
    ensures r.Some? <==> w == 0 || w == 1
  {
    if w == 0 then Some("Non-Workday") else if w == 1 then Some("Workday") else None
  }

  /** The three-way day-type label of the holiday/working-day means: a
      holiday is a holiday whatever its working-day flag says. */
  function DayTypeLabel(holiday: int, workingday: int): (r: string)
    ensures r == "Holiday" <==> holiday == 1
    ensures r == "Working Day" <==> holiday != 1 && workingday == 1
    ensures r == "Non-Working Day" <==> holiday != 1 && workingday != 1
  {
    if holiday == 1 then "Holiday"
    else if workingday == 1 then "Working Day"
    else "Non-Working Day"
  }

  /** The year remap is idempotent, and on the documented codes it is
      injective: 2011 and 2012 are told apart. */
  lemma YearRemapProperties(y: int, z: int)
    ensures YearRemap(YearRemap(y)) == YearRemap(y)
    ensures (y == 0 || y == 1) && (z == 0 || z == 1) ==>
      (YearRemap(y) == YearRemap(z) <==> y == z)
    ensures (y == 0 || y == 1) && (z == 0 || z == 1) ==>
      (YearRemap(y) < YearRemap(z) <==> y < z)
  {
  }

  /** Distinct codes get distinct labels, so a label names its code. */
  lemma LabelsInjective(a: int, b: int)
    ensures MonthName(a).Some? && MonthName(a) == MonthName(b) ==> a == b
    ensures SeasonName(a).Some? && SeasonName(a) == SeasonName(b) ==> a == b
    ensures WeatherName(a).Some? && WeatherName(a) == WeatherName(b) ==> a == b
    ensures HolidayName(a).Some? && HolidayName(a) == HolidayName(b) ==> a == b
    ensures WorkdayName(a).Some? && WorkdayName(a) == WorkdayName(b) ==> a == b
  {
  }

}
