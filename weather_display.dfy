/** The data derivations of the weather screens: the week list, the
    current-hour humidity lookup, the current-day fields, and the checks
    that keep the NaN sentinel from being shown as a number. */
module WeatherDisplay {
  import opened Wrappers
  import opened Strings
  import opened Conditions
  import opened Forecast
  import opened Util

  /** The week list handed to the screen: no list when the payload has no
      daily series, otherwise the seven normalised records. */
  function WeekForecastDays(week: WeekForecast): (r: Option<seq<DayForecast>>)
    ensures r.None? <==> week.daily.None?
    ensures r.Some? ==> r.value == FormatToDayForecast(week.daily.value)
    ensures r.Some? ==> |r.value| == ForecastDays && r.value[0].weekDay == "Today"
  {
    match week.daily
    case None => None
    case Some(daily) => Some(FormatToDayForecast(daily))
  }

  // ---------------------------------------------------------------------
  // Current-hour humidity

  /** The hourly timestamp `hour` matches the current time when the current
      time starts with `hour` less its last two characters. */
  function MatchesHour(currentTime: string, hour: string): (r: bool)
    ensures r <==> |hour| <= 2
                   || (|hour| - 2 <= |currentTime|
                       && forall k :: 0 <= k < |hour| - 2 ==> currentTime[k] == hour[k])
  {
    DropLast(hour, 2) <= currentTime
  }

  /** A timestamp of at most two characters drops to "" and matches any
      current time. */
  lemma ShortTimestampMatchesAny(currentTime: string, hour: string)
    requires |hour| <= 2
    ensures MatchesHour(currentTime, hour)
  {
  }

  /** Position of the first timestamp that matches the current time, or -1. */
  function IndexOfFirstMatch(times: seq<string>, currentTime: string): (k: int)
    ensures -1 <= k < |times|
    ensures k >= 0 ==> MatchesHour(currentTime, times[k])
    ensures forall j :: 0 <= j < |times| && (k == -1 || j < k) ==> !MatchesHour(currentTime, times[j])
  {
    if |times| == 0 then -1
    else if MatchesHour(currentTime, times[0]) then 0
    else
      var k := IndexOfFirstMatch(times[1..], currentTime);
      if k == -1 then -1 else k + 1
  }

  function CurrentTime(cf: CurrentForecast): (r: Option<string>)
  {
    if cf.currentWeather.Some? then cf.currentWeather.value.time else None
  }

  function HourlyTimes(cf: CurrentForecast): (r: Option<seq<string>>)
  {
    if cf.hourly.Some? then cf.hourly.value.time else None
  }

  function HourlyHumidities(cf: CurrentForecast): (r: Option<seq<real>>)
  {
    if cf.hourly.Some? then cf.hourly.value.relativeHumidity2m else None
  }

  /** `timeIndex`: the position of the first hourly timestamp that matches
      the current time, or -1 when either is missing or nothing matches. */
  function TimeIndex(cf: CurrentForecast): (k: int)
    ensures k == -1 || (k >= 0 && Has(HourlyTimes(cf), k))
    ensures k >= 0 ==>
              && CurrentTime(cf).Some?
              && MatchesHour(CurrentTime(cf).value, HourlyTimes(cf).value[k])
              && forall j :: 0 <= j < k ==> !MatchesHour(CurrentTime(cf).value, HourlyTimes(cf).value[j])
    ensures k == -1 <==>
              CurrentTime(cf).None? || HourlyTimes(cf).None?
              || forall j :: 0 <= j < |HourlyTimes(cf).value| ==> !MatchesHour(CurrentTime(cf).value, HourlyTimes(cf).value[j])
  {
    if CurrentTime(cf).Some? && HourlyTimes(cf).Some? then
      IndexOfFirstMatch(HourlyTimes(cf).value, CurrentTime(cf).value)
    else
      -1
  }

  /** Result of the source's humidity lookup: a value (present or not), or
      the out-of-range fault of indexing the humidity list unchecked. */
  datatype HumidityLookup = Looked(humidity: Option<real>) | OutOfBounds(index: int, size: int)

  /** The current humidity as the source computes it: the humidity list is
      indexed at the matched position without a bounds check. */
  function HumidityAsWritten(cf: CurrentForecast): (r: HumidityLookup)
    ensures r.OutOfBounds? <==>
              TimeIndex(cf) != -1 && HourlyHumidities(cf).Some? && TimeIndex(cf) >= |HourlyHumidities(cf).value|
  {
    var k := TimeIndex(cf);
    var hs := HourlyHumidities(cf);
    if k != -1 && hs.Some? then
      if k < |hs.value| then Looked(Some(hs.value[k])) else OutOfBounds(k, |hs.value|)
    else
      Looked(None)
  }

  /** A payload whose humidity list is shorter than its time list makes
      the source's lookup fault. */
  const ShortHumidityPayload := CurrentForecast(
    None, None,
    Some(CurrentWeather(None, None, None, Some("2024-05-01T06:12"))),
    Some(HourlyHumidity(Some(["2024-05-01T06:00"]), Some([]))),
    None)

  /** The hour "2024-05-01T06:00" matches the current time "2024-05-01T06:12". */
  lemma HourExampleMatches()
    ensures MatchesHour("2024-05-01T06:12", "2024-05-01T06:00")
  {
    assert "2024-05-01T06:00" == "2024-05-01T06:" + "00";
    assert DropLast("2024-05-01T06:00", 2) == "2024-05-01T06:";
    assert "2024-05-01T06:12" == "2024-05-01T06:" + "12";
  }

  lemma HumidityAsWrittenFaults()
    ensures HumidityAsWritten(ShortHumidityPayload) == OutOfBounds(0, 0)
  {
    HourExampleMatches();
  }

  /** The current humidity: the humidity sample at the first matching hour,
      or none when the time, the series or that sample is missing. */
  function CurrentHumidity(cf: CurrentForecast): (r: Option<real>)
    ensures r.Some? <==> TimeIndex(cf) != -1 && Has(HourlyHumidities(cf), TimeIndex(cf))
    ensures r.Some? ==> r.value == HourlyHumidities(cf).value[TimeIndex(cf)]
  {
    var k := TimeIndex(cf);
    if k != -1 then GetOrNull(HourlyHumidities(cf), k) else None
  }

  /** The guarded lookup agrees with the source wherever the source does
      not fault, and gives no value where it would. */
  lemma CurrentHumidityRefinesSource(cf: CurrentForecast)
    ensures HumidityAsWritten(cf).Looked? ==> CurrentHumidity(cf) == HumidityAsWritten(cf).humidity
    ensures HumidityAsWritten(cf).OutOfBounds? ==> CurrentHumidity(cf).None?
  {
  }

  /** Without a current time, or when no hour matches, there is no humidity. */
  lemma NoMatchNoHumidity(cf: CurrentForecast)
    requires CurrentTime(cf).None? || HourlyTimes(cf).None?
             || forall j :: 0 <= j < |HourlyTimes(cf).value| ==> !MatchesHour(CurrentTime(cf).value, HourlyTimes(cf).value[j])
    ensures CurrentHumidity(cf).None?
  {
  }

  /** Worked example: 06:12 falls in the hour "2024-05-01T06:", the first
      of the series, so the first sample is shown. */
  lemma CurrentHumidityExample()
    ensures CurrentHumidity(CurrentForecast(
              None, None,
              Some(CurrentWeather(None, None, None, Some("2024-05-01T06:12"))),
              Some(HourlyHumidity(Some(["2024-05-01T06:00", "2024-05-01T07:00"]), Some([55.0, 60.0]))),
              None)) == Some(55.0)
  {
    HourExampleMatches();
  }

  // ---------------------------------------------------------------------
  // Current-day fields

  /** What the current-weather screen derives from the payload. The wind
      speed stays in km/h; the division by 3.6 and the rounding to one
      decimal happen only when it is formatted. */
  datatype CurrentView = CurrentView(
    humidity: Option<real>,
    sunrise: string,
    sunset: string,
    condition: WeatherCondition,
    temperature: Option<real>,
    windspeedKmh: Option<real>)

  function DailySunrises(cf: CurrentForecast): (r: Option<seq<string>>)
  {
    if cf.daily.Some? then cf.daily.value.sunrise else None
  }

  function DailySunsets(cf: CurrentForecast): (r: Option<seq<string>>)
  {
    if cf.daily.Some? then cf.daily.value.sunset else None
  }

  function CurrentWeatherFields(cf: CurrentForecast): (r: CurrentView)
    ensures r.humidity == CurrentHumidity(cf)
    ensures r.sunrise == (if Has(DailySunrises(cf), 0) then GetTimeOfDay(Some(DailySunrises(cf).value[0])) else Unavailable)
    ensures r.sunset == (if Has(DailySunsets(cf), 0) then GetTimeOfDay(Some(DailySunsets(cf).value[0])) else Unavailable)
    ensures cf.currentWeather.None? ==>
              r.condition == Unknown && r.temperature.None? && r.windspeedKmh.None?
    ensures cf.currentWeather.Some? ==>
              r.condition == GetWeatherByCode(cf.currentWeather.value.weathercode)
              && r.temperature == cf.currentWeather.value.temperature
              && r.windspeedKmh == cf.currentWeather.value.windspeed
  {
    var cw := cf.currentWeather;
    CurrentView(
      humidity := CurrentHumidity(cf),
      sunrise := GetTimeOfDay(GetOrNull(DailySunrises(cf), 0)),
      sunset := GetTimeOfDay(GetOrNull(DailySunsets(cf), 0)),
      condition := GetWeatherByCode(if cw.Some? then cw.value.weathercode else None),
      temperature := if cw.Some? then cw.value.temperature else None,
      windspeedKmh := if cw.Some? then cw.value.windspeed else None)
  }

  // ---------------------------------------------------------------------
  // Day-row labels

  /** What a day row shows for a number: "Unavailable", a temperature in
      degrees Celsius, or a wind speed given in km/h and shown in m/s. */
  datatype Shown = ShownUnavailable | Celsius(degrees: real) | MetresPerSecond(fromKmh: real)

  /** A temperature label: "Unavailable" for NaN, else the degrees. */
  function TemperatureText(t: Num): (r: Shown)
    ensures r == ShownUnavailable <==> t.NaN?
    ensures t.Val? ==> r == Celsius(t.v)
  {
    match t
    case NaN => ShownUnavailable
    case Val(v) => Celsius(v)
  }

  /** A wind label: "Unavailable" for NaN, else the km/h value to be shown in m/s. */
  function WindSpeedText(w: Num): (r: Shown)
    ensures r == ShownUnavailable <==> w.NaN?
    ensures w.Val? ==> r == MetresPerSecond(w.v)
  {
    if w.NaN? then ShownUnavailable else MetresPerSecond(w.v)
  }

  /** A sentinel is never shown as a number: every field of a day row
      that shows a number comes from a present list element. */
  lemma DayRowShowsNoSentinel(daily: DailyData, i: nat)
    requires i < ForecastDays
    ensures var d := FormatToDayForecast(daily)[i];
      (TemperatureText(d.temperatureMax) != ShownUnavailable ==> Has(daily.temperature2mMax, i))
      && (TemperatureText(d.temperatureMin) != ShownUnavailable ==> Has(daily.temperature2mMin, i))
      && (WindSpeedText(d.windspeed) != ShownUnavailable ==>
            Has(daily.windspeed10mMax, i)
            && WindSpeedText(d.windspeed) == MetresPerSecond(daily.windspeed10mMax.value[i]))
  {
  }
}
