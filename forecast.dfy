/** The payload shapes of the forecast provider and the normalised
    per-day record built from them. */
module Forecast {
  import opened Wrappers
  import opened Conditions

  /** A `Double` that may hold the `Double.NaN` sentinel; doubles are
      treated as exact reals, not as IEEE arithmetic. */
  datatype Num = Val(v: real) | NaN

  /** The `current_weather` object of the current-forecast payload. */
  datatype CurrentWeather = CurrentWeather(
    temperature: Option<real>,
    windspeed: Option<real>,   // km/h
    weathercode: Option<int>,
    time: Option<string>)

  /** Index-aligned hourly series. */
  datatype HourlyHumidity = HourlyHumidity(
    time: Option<seq<string>>,
    relativeHumidity2m: Option<seq<real>>)

  datatype SunData = SunData(
    sunrise: Option<seq<string>>,
    sunset: Option<seq<string>>)

  datatype CurrentForecast = CurrentForecast(
    latitude: Option<real>,
    longitude: Option<real>,
    currentWeather: Option<CurrentWeather>,
    hourly: Option<HourlyHumidity>,
    daily: Option<SunData>)

  /** Index-aligned daily series, day offset 0 being today. */
  datatype DailyData = DailyData(
    temperature2mMax: Option<seq<real>>,
    temperature2mMin: Option<seq<real>>,
    windspeed10mMax: Option<seq<real>>,   // km/h
    sunrise: Option<seq<string>>,
    sunset: Option<seq<string>>,
    relativeHumidity2mMax: Option<seq<real>>,
    weathercode: Option<seq<int>>)

  datatype WeekForecast = WeekForecast(
    latitude: Option<real>,
    longitude: Option<real>,
    daily: Option<DailyData>)

  datatype DayForecast = DayForecast(
    temperatureMax: Num,
    temperatureMin: Num,
    windspeed: Num,   // km/h
    sunrise: string,
    sunset: string,
    humidity: Num,
    weekDay: string,
    weatherCondition: WeatherCondition)

  /** Whether a nullable list is present and has an element at `i`. */
  predicate Has<T>(xs: Option<seq<T>>, i: nat)
  {
    xs.Some? && i < |xs.value|
  }

  /** Element `i` of a nullable list, or none when the list is absent or too short. */
  function GetOrNull<T>(xs: Option<seq<T>>, i: nat): (r: Option<T>)
    ensures r.Some? <==> Has(xs, i)
    ensures r.Some? ==> r.value == xs.value[i]
  {
    match xs
    case None => None
    case Some(s) => if i < |s| then Some(s[i]) else None
  }

  /** A missing number becomes the NaN sentinel. */
  function NumOrNaN(x: Option<real>): (r: Num)
    ensures r.NaN? <==> x.None?
    ensures x.Some? ==> r == Val(x.value)
  {
    match x
    case None => NaN
    case Some(v) => Val(v)
  }
}
