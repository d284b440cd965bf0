/** The time-string helpers and the 7-day normaliser of the forecast. */
module Util {
  import opened Wrappers
  import opened Strings
  import opened Calendar
  import opened Conditions
  import opened Forecast

  const Unavailable := "Unavailable"

  /** Number of day records the normaliser always builds. */
  const ForecastDays := 7

  /** `getTimeOfDay`: the second `T`-separated field of an ISO date-time,
      that is the text between the first `T` and the next `T` (or the end). */
  function GetTimeOfDay(time: Option<string>): (r: string)
    ensures time.None? ==> r == Unavailable
    ensures time.Some? && 'T' !in time.value ==> r == Unavailable
    ensures time.Some? && 'T' in time.value ==>
              var rest := time.value[FirstIndex(time.value, 'T') + 1..];
              r == rest[..FirstIndex(rest, 'T')]
  {
    match time
    case None => Unavailable
    case Some(s) =>
      var fields := Split(s, 'T');
      SplitAtFirst(s, 'T');
      if |fields| > 1 then
        SplitAtFirst(s[FirstIndex(s, 'T') + 1..], 'T');
        fields[1]
      else
        Unavailable
  }

  /** `getWeekDay`: the English name of the day of the week of the date
      before the first `T`, or "Unavailable" when there is no input or that
      date does not parse. The source's early return for a missing first
      field is never taken, since a split always has a first field. */
  function GetWeekDay(time: Option<string>): (r: string)
    ensures r == Unavailable || r in WeekdayNames
    ensures time.None? ==> r == Unavailable
  {
    match time
    case None => Unavailable
    case Some(s) =>
      var date := Split(s, 'T')[0];
      match ParseIsoDate(date)
      case None => Unavailable
      case Some(d) => WeekdayName(d)
  }

  /** A date-time whose date part is the text of a calendar date is
      named by that date's day of the week, whatever follows the `T`. */
  lemma WeekDayOfDate(d: Date, rest: string)
    requires IsIsoDate(d)
    requires rest == [] || rest[0] == 'T'
    ensures GetWeekDay(Some(FormatIso(d) + rest)) == WeekdayName(d)
  {
    var s := FormatIso(d) + rest;
    FormatIsoHasNoT(d);
    FirstIndexAfter(FormatIso(d), rest, 'T');
    SplitAtFirst(s, 'T');
    assert s[..|FormatIso(d)|] == FormatIso(d);
    ParseFormatIso(d);
  }

  /** A date-time whose date part is not the text of a calendar date
      gives "Unavailable", never a fault. */
  lemma WeekDayUnavailable(s: string)
    requires forall d :: IsIsoDate(d) ==> FormatIso(d) != s[..FirstIndex(s, 'T')]
    ensures GetWeekDay(Some(s)) == Unavailable
  {
    SplitAtFirst(s, 'T');
  }

  /** The time of day of `date T time ...` is `time`. */
  lemma TimeOfDayOfDateTime(date: string, time: string, rest: string)
    requires 'T' !in date && 'T' !in time
    requires rest == [] || rest[0] == 'T'
    ensures GetTimeOfDay(Some(date + "T" + time + rest)) == time
  {
    var s := date + "T" + time + rest;
    assert s == date + ("T" + time + rest);
    FirstIndexAfter(date, "T" + time + rest, 'T');
    assert s[|date|] == 'T';
    var after := s[|date| + 1..];
    assert after == time + rest;
    FirstIndexAfter(time, rest, 'T');
    assert after[..|time|] == time;
  }

  /** Worked example: the time of day of a date-time is the part after `T`. */
  lemma TimeOfDayExample()
    ensures GetTimeOfDay(Some("2024-05-01T06:12")) == "06:12"
  {
    assert "2024-05-01T06:12" == "2024-05-01" + "T" + "06:12" + "";
    TimeOfDayOfDateTime("2024-05-01", "06:12", "");
  }

  /** Worked examples: 1 May 2024 was a Wednesday; a text that is no
      date has no day of the week, and no fault is raised. */
  lemma WeekDayExamples()
    ensures GetWeekDay(Some("2024-05-01T06:12")) == "Wednesday"
    ensures GetWeekDay(Some("not-a-date")) == Unavailable
  {
    var d := Date(2024, 5, 1);
    assert FormatIso(d) == "2024-05-01";
    assert "2024-05-01T06:12" == FormatIso(d) + "T06:12";
    WeekDayOfDate(d, "T06:12");
    KnownWeekdays();
    assert "not-a-date" == "not-a-date" + "";
    FirstIndexAfter("not-a-date", "", 'T');
    WeekDayUnavailable("not-a-date");
  }

  /** `DailyData.formatToDayForecast`: exactly seven records in day order,
      each field read from its own list at the day's index, independently
      of the other lists, a missing element giving the field's sentinel. */
  function FormatToDayForecast(daily: DailyData): (r: seq<DayForecast>)
    ensures |r| == ForecastDays
    ensures forall i :: 0 <= i < |r| ==>
              r[i].temperatureMax == (if Has(daily.temperature2mMax, i) then Val(daily.temperature2mMax.value[i]) else NaN)
    ensures forall i :: 0 <= i < |r| ==>
              r[i].temperatureMin == (if Has(daily.temperature2mMin, i) then Val(daily.temperature2mMin.value[i]) else NaN)
    ensures forall i :: 0 <= i < |r| ==>
              r[i].windspeed == (if Has(daily.windspeed10mMax, i) then Val(daily.windspeed10mMax.value[i]) else NaN)
    ensures forall i :: 0 <= i < |r| ==>
              r[i].humidity == (if Has(daily.relativeHumidity2mMax, i) then Val(daily.relativeHumidity2mMax.value[i]) else NaN)
    ensures forall i :: 0 <= i < |r| ==>
              r[i].sunrise == (if Has(daily.sunrise, i) then GetTimeOfDay(Some(daily.sunrise.value[i])) else Unavailable)
    ensures forall i :: 0 <= i < |r| ==>
              r[i].sunset == (if Has(daily.sunset, i) then GetTimeOfDay(Some(daily.sunset.value[i])) else Unavailable)
    ensures r[0].weekDay == "Today"
    ensures forall i :: 1 <= i < |r| ==>
              r[i].weekDay == (if Has(daily.sunrise, i) then GetWeekDay(Some(daily.sunrise.value[i])) else Unavailable)
    ensures forall i :: 0 <= i < |r| ==>
              r[i].weatherCondition == (if Has(daily.weathercode, i) then GetWeatherByCode(Some(daily.weathercode.value[i])) else Unknown)
  {
    seq(ForecastDays, index requires 0 <= index =>
      DayForecast(
        temperatureMax := NumOrNaN(GetOrNull(daily.temperature2mMax, index)),
        temperatureMin := NumOrNaN(GetOrNull(daily.temperature2mMin, index)),
        windspeed := NumOrNaN(GetOrNull(daily.windspeed10mMax, index)),
        sunrise := GetTimeOfDay(GetOrNull(daily.sunrise, index)),
        sunset := GetTimeOfDay(GetOrNull(daily.sunset, index)),
        humidity := NumOrNaN(GetOrNull(daily.relativeHumidity2mMax, index)),
        weekDay := if index == 0 then "Today" else GetWeekDay(GetOrNull(daily.sunrise, index)),
        weatherCondition := GetWeatherByCode(GetOrNull(daily.weathercode, index))))
  }

  const AllAbsent := DailyData(None, None, None, None, None, None, None)

  /** Without any data every record is sentinel-filled: NaN numbers,
      "Unavailable" times and weekdays (but "Today"), unknown weather. */
  lemma FormatAllAbsent()
    ensures var r := FormatToDayForecast(AllAbsent);
      forall i :: 0 <= i < |r| ==>
        r[i].temperatureMax == NaN && r[i].temperatureMin == NaN
        && r[i].windspeed == NaN && r[i].humidity == NaN
        && r[i].sunrise == Unavailable && r[i].sunset == Unavailable
        && r[i].weekDay == (if i == 0 then "Today" else Unavailable)
        && r[i].weatherCondition == Unknown
  {
  }

  /** Lists of `n` elements fill the numeric fields and the weather of the
      first `n` records and leave the others with sentinels. */
  lemma FormatShortLists(daily: DailyData, n: nat)
    requires n <= ForecastDays
    requires daily.temperature2mMax.Some? && |daily.temperature2mMax.value| == n
    requires daily.temperature2mMin.Some? && |daily.temperature2mMin.value| == n
    requires daily.windspeed10mMax.Some? && |daily.windspeed10mMax.value| == n
    requires daily.relativeHumidity2mMax.Some? && |daily.relativeHumidity2mMax.value| == n
    requires daily.sunrise.Some? && |daily.sunrise.value| == n
    requires daily.sunset.Some? && |daily.sunset.value| == n
    requires daily.weathercode.Some? && |daily.weathercode.value| == n
    ensures var r := FormatToDayForecast(daily);
      (forall i :: 0 <= i < n ==>
         r[i].temperatureMax.Val? && r[i].temperatureMin.Val?
         && r[i].windspeed.Val? && r[i].humidity.Val?)
      && (forall i :: n <= i < |r| ==>
         r[i].temperatureMax == NaN && r[i].temperatureMin == NaN
         && r[i].windspeed == NaN && r[i].humidity == NaN
         && r[i].sunrise == Unavailable && r[i].sunset == Unavailable
         && r[i].weatherCondition == Unknown
         && (i > 0 ==> r[i].weekDay == Unavailable))
  {
  }

  /** Each field of a record depends on its own list only: two payloads
      that agree on one list agree on the field built from it. */
  lemma FormatReadsListsIndependently(a: DailyData, b: DailyData, i: nat)
    requires i < ForecastDays
    ensures a.temperature2mMax == b.temperature2mMax ==>
              FormatToDayForecast(a)[i].temperatureMax == FormatToDayForecast(b)[i].temperatureMax
    ensures a.temperature2mMin == b.temperature2mMin ==>
              FormatToDayForecast(a)[i].temperatureMin == FormatToDayForecast(b)[i].temperatureMin
    ensures a.windspeed10mMax == b.windspeed10mMax ==>
              FormatToDayForecast(a)[i].windspeed == FormatToDayForecast(b)[i].windspeed
    ensures a.relativeHumidity2mMax == b.relativeHumidity2mMax ==>
              FormatToDayForecast(a)[i].humidity == FormatToDayForecast(b)[i].humidity
    ensures a.sunrise == b.sunrise ==>
              FormatToDayForecast(a)[i].sunrise == FormatToDayForecast(b)[i].sunrise
              && FormatToDayForecast(a)[i].weekDay == FormatToDayForecast(b)[i].weekDay
    ensures a.sunset == b.sunset ==>
              FormatToDayForecast(a)[i].sunset == FormatToDayForecast(b)[i].sunset
    ensures a.weathercode == b.weathercode ==>
              FormatToDayForecast(a)[i].weatherCondition == FormatToDayForecast(b)[i].weatherCondition
  {
  }
}
