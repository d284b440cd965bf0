# Weather app forecast core, in Dafny

This project models the data-normalisation layer of an Android weather
client that shows current weather and a 7-day forecast from Open-Meteo
payloads. It also models the two view-models that hold the selected
location and the selected forecast day.

- **Conditions** (`weather_condition.dfy`): `getWeatherByCode`, which maps a WMO
  weather code (or none) to a title and an icon. The module also holds an
  independent code table, and proves that the branches are unambiguous and
  that anything else is "unknown". Titles do not each have their own icon:
  "Drizzle" and "Icy Drizzle" share one, so do "Rain" and "Icy Rain", and
  so do the three snow titles.
- **Strings**, **Calendar** (`strings.dfy`, `calendar.dfy`): the pieces of
  Kotlin and `LocalDate` the core depends on.
  - `split` on a one-character delimiter, with its join round trip.
  - `dropLast`.
  - The ISO 8601 calendar date in the complete extended form `YYYY-MM-DD`
    (section 4.1.2.2 of ISO 8601:2004): a parser shown to be the exact
    inverse of the formatter on valid dates.
  - The proleptic Gregorian day of the week, computed from a day count.
    The day count is proved to advance by one from each day to the next,
    and 2024-05-01 is proved to be a Wednesday.
- **Forecast**, **Util** (`forecast.dfy`, `util.dfy`): the payload shapes,
  `getTimeOfDay`, `getWeekDay`, and `DailyData.formatToDayForecast`, which
  always builds seven records. Each field is read from its own list, and a
  missing element becomes a sentinel: `NaN` for numbers, "Unavailable" for
  text, the unknown condition for weather.
- **WeatherDisplay** (`weather_display.dfy`): the pure derivations inside the
  weather composables.
  - The current-hour humidity lookup: the first hourly timestamp that,
    less its last two characters, starts the current time. For example
    `dropLast(2)` of "2024-05-01T06:00" is "2024-05-01T06:", which starts
    "2024-05-01T06:12". The lookup faults when the matched position is past
    the end of the humidity list (see Findings).
  - The current-day fields.
  - The checks that show a `NaN` temperature or wind speed as "Unavailable".
- **Location** (`weather_app_view_model.dfy`): `WeatherAppViewModel` as a
  class. `selectCity` is split into `BeginSelect` (the optimistic city
  update) and `Complete` (the geocoding response). Both are specified by
  pure transition functions, and the lemmas are proved about those.
- **DaySelection** (`day_forecast_view_model.dfy`): `DayForecastViewModel`, a
  one-slot store.

Doubles are exact reals, and `Double.NaN` is the `NaN` constructor of `Num`.
Network responses are inputs (`Option` values). Nothing here does I/O.

## Model

| member | source | states |
|---|---|---|
| Conditions.GetWeatherByCode | WeatherApp/app/src/main/java/com/example/weatherapp/WeatherCondition.kt:25-42 | the result is a row's condition exactly when the code is present and among that row's codes; no code gives the unknown condition |
| Strings.Split | WeatherApp/app/src/main/java/com/example/weatherapp/Util.kt:17 | a split has at least one field and no field contains the delimiter |
| Strings.JoinSplit | WeatherApp/app/src/main/java/com/example/weatherapp/Util.kt:17 | joining the fields of a split with the delimiter gives back the input |
| Strings.FirstIndex | WeatherApp/app/src/main/java/com/example/weatherapp/Util.kt:60 | the position found holds the character, and no earlier position does |
| Strings.SplitAtFirst | WeatherApp/app/src/main/java/com/example/weatherapp/Util.kt:17 | the first field is the text before the first delimiter, and the other fields are those of the text after it |
| Strings.DropLast | WeatherApp/app/src/main/java/com/example/weatherapp/WeatherDisplay.kt:130 | a string of length at most n drops to ""; otherwise the result is the prefix n characters shorter |
| Util.GetTimeOfDay | WeatherApp/app/src/main/java/com/example/weatherapp/Util.kt:16-18 | no input, or no `T`, gives "Unavailable"; otherwise the text between the first `T` and the next `T` or the end |
| Util.TimeOfDayOfDateTime | WeatherApp/app/src/main/java/com/example/weatherapp/Util.kt:16-18 | the time of day of "date T time ..." is the time field |
| Util.TimeOfDayExample | WeatherApp/app/src/main/java/com/example/weatherapp/Util.kt:16-18 | "2024-05-01T06:12" gives "06:12" |
| Util.GetWeekDay | WeatherApp/app/src/main/java/com/example/weatherapp/Util.kt:58-70 | the result is "Unavailable" or an English weekday name; no input gives "Unavailable" |
| Util.WeekDayOfDate | WeatherApp/app/src/main/java/com/example/weatherapp/Util.kt:58-63 | a date-time whose part before `T` is the text of a valid date gets that date's weekday name |
| Util.WeekDayUnavailable | WeatherApp/app/src/main/java/com/example/weatherapp/Util.kt:59-67 | a date part that is not the text of any valid date gives "Unavailable", with no fault |
| Util.WeekDayExamples | WeatherApp/app/src/main/java/com/example/weatherapp/Util.kt:58-70 | "2024-05-01T06:12" is a Wednesday; "not-a-date" gives "Unavailable" |
| Calendar.ParseIsoDate | WeatherApp/app/src/main/java/com/example/weatherapp/Util.kt:63 | an accepted text names a valid Gregorian date and is exactly that date's `YYYY-MM-DD` text |
| Calendar.ParseFormatIso | WeatherApp/app/src/main/java/com/example/weatherapp/Util.kt:63 | parsing the text of any valid date gives that date back |
| Calendar.ParseIsoDateExact | WeatherApp/app/src/main/java/com/example/weatherapp/Util.kt:63 | the parser yields d exactly when d is valid and the text is d's text, in both directions |
| Calendar.FormatIsoHasNoT | WeatherApp/app/src/main/java/com/example/weatherapp/Util.kt:60 | a date text has no `T`, so it survives the split intact |
| Calendar.DaysInMonth | WeatherApp/app/src/main/java/com/example/weatherapp/Util.kt:63 | February has 29 days exactly in leap years; April, June, September and November have 30; the rest have 31 |
| Calendar.LeapYearsBeforeCounts | WeatherApp/app/src/main/java/com/example/weatherapp/Util.kt:63 | the closed-form leap-year count equals the year-by-year count |
| Calendar.LeapYearsStep | WeatherApp/app/src/main/java/com/example/weatherapp/Util.kt:63 | the closed-form count grows by one exactly after a leap year |
| Calendar.DaysInYear | WeatherApp/app/src/main/java/com/example/weatherapp/Util.kt:63 | the months of a year add up to 366 days in leap years and 365 otherwise |
| Calendar.NextDay | WeatherApp/app/src/main/java/com/example/weatherapp/Util.kt:63 | the day after a calendar date is a calendar date |
| Calendar.NextDayNumber | WeatherApp/app/src/main/java/com/example/weatherapp/Util.kt:63 | the day count goes up by exactly one from each day to the next, across month and year ends |
| Calendar.NextDayOfWeek | WeatherApp/app/src/main/java/com/example/weatherapp/Util.kt:63 | consecutive days fall on consecutive days of the week |
| Calendar.KnownWeekdays | WeatherApp/app/src/main/java/com/example/weatherapp/Util.kt:63 | 2000-01-01 is a Saturday and 2024-05-01 a Wednesday |
| Calendar.WeekdayName | WeatherApp/app/src/main/java/com/example/weatherapp/Util.kt:63 | every date is named by one of the seven English weekday names |
| Forecast.GetOrNull | WeatherApp/app/src/main/java/com/example/weatherapp/Util.kt:34 | an element exists exactly when the list is present and long enough, and it is the list's element at that index |
| Forecast.NumOrNaN | WeatherApp/app/src/main/java/com/example/weatherapp/Util.kt:34 | a missing number becomes NaN, and a present one is kept |
| Util.FormatToDayForecast | WeatherApp/app/src/main/java/com/example/weatherapp/Util.kt:31-44 | exactly 7 records in index order; each numeric field at i is element i of its own list or NaN; sunrise/sunset are the time of day of element i or "Unavailable"; record 0 is "Today" and the others are the weekday of sunrise i; the condition is the classified code i or unknown |
| Util.FormatAllAbsent | WeatherApp/app/src/main/java/com/example/weatherapp/Util.kt:32-41 | with every list absent, all 7 records hold sentinels, and records 1..6 have weekday "Unavailable" |
| Util.FormatShortLists | WeatherApp/app/src/main/java/com/example/weatherapp/Util.kt:32-41 | with lists of n elements, records before n have numbers and records from n on hold sentinels |
| Util.FormatReadsListsIndependently | WeatherApp/app/src/main/java/com/example/weatherapp/Util.kt:34-41 | each field depends only on its own list: payloads that agree on a list agree on that field |
| Conditions.TableIsUnambiguous | WeatherApp/app/src/main/java/com/example/weatherapp/WeatherCondition.kt:26-39 | the code sets are pairwise disjoint and the titles pairwise distinct |
| Conditions.ClassifiedByTable | WeatherApp/app/src/main/java/com/example/weatherapp/WeatherCondition.kt:25-42 | a code gets a row's condition exactly when it is among that row's codes, whatever the branch order |
| Conditions.UnknownExactly | WeatherApp/app/src/main/java/com/example/weatherapp/WeatherCondition.kt:40 | the unknown condition with the error icon is given exactly for no code or a code outside every row |
| Conditions.ClearCloudyOvercast | WeatherApp/app/src/main/java/com/example/weatherapp/WeatherCondition.kt:27-29 | "Clear" exactly for 0, "Partly Cloudy" exactly for 1 and 2, "Overcast" exactly for 3 |
| Conditions.FogAndDrizzle | WeatherApp/app/src/main/java/com/example/weatherapp/WeatherCondition.kt:30-34 | "Foggy" for 45/48, "Drizzle" for 51/53/55, "Icy Drizzle" for 56/57; the drizzle icon for exactly those five drizzle codes |
| Conditions.RainAndShowers | WeatherApp/app/src/main/java/com/example/weatherapp/WeatherCondition.kt:32-35 | "Rain" for 61/63/65, "Icy Rain" for 66/67, both with the rain icon and no other code with it; "Showers" for 80-82 |
| Conditions.SnowAndThunder | WeatherApp/app/src/main/java/com/example/weatherapp/WeatherCondition.kt:36-39 | "Snow" for 71/73/75, "Snow Grains" for 77, "Snow Showers" for 85/86, the snow icon for exactly these; "Thunder Storm" for 95/96/99 |
| WeatherDisplay.WeekForecastDays | WeatherApp/app/src/main/java/com/example/weatherapp/WeatherDisplay.kt:311-312 | no list without a daily series; otherwise exactly the normalised records of that series, 7 of them starting with "Today" |
| WeatherDisplay.MatchesHour | WeatherApp/app/src/main/java/com/example/weatherapp/WeatherDisplay.kt:130 | an hour matches exactly when it has at most two characters, or the current time agrees with it character by character on all but its last two characters |
| WeatherDisplay.ShortTimestampMatchesAny | WeatherApp/app/src/main/java/com/example/weatherapp/WeatherDisplay.kt:130 | an hourly timestamp of at most two characters matches any current time |
| WeatherDisplay.IndexOfFirstMatch | WeatherApp/app/src/main/java/com/example/weatherapp/WeatherDisplay.kt:129-131 | the index is -1 or in range; a found index matches and no earlier one does; -1 means that nothing matches |
| WeatherDisplay.TimeIndex | WeatherApp/app/src/main/java/com/example/weatherapp/WeatherDisplay.kt:127-134 | -1 exactly when the current time or the hourly times are missing or nothing matches; otherwise the first matching position |
| WeatherDisplay.HumidityAsWritten | WeatherApp/app/src/main/java/com/example/weatherapp/WeatherDisplay.kt:136-140 | the source's lookup faults exactly when an index was found, the humidity list is present and the index is past its end |
| WeatherDisplay.HourExampleMatches | WeatherApp/app/src/main/java/com/example/weatherapp/WeatherDisplay.kt:130 | the hour "2024-05-01T06:00" matches the current time "2024-05-01T06:12" |
| WeatherDisplay.HumidityAsWrittenFaults | WeatherApp/app/src/main/java/com/example/weatherapp/WeatherDisplay.kt:137 | one matching hour with an empty humidity list makes the source's lookup index past the end |
| WeatherDisplay.CurrentHumidity | WeatherApp/app/src/main/java/com/example/weatherapp/WeatherDisplay.kt:136-140 | a humidity is shown exactly when an hour matched and its sample exists, and it is the sample at the first matching hour |
| WeatherDisplay.CurrentHumidityRefinesSource | WeatherApp/app/src/main/java/com/example/weatherapp/WeatherDisplay.kt:136-140 | the guarded lookup equals the source's wherever the source does not fault, and gives none where it would |
| WeatherDisplay.NoMatchNoHumidity | WeatherApp/app/src/main/java/com/example/weatherapp/WeatherDisplay.kt:128-140 | without a current time, hourly times or a matching hour there is no humidity |
| WeatherDisplay.CurrentHumidityExample | WeatherApp/app/src/main/java/com/example/weatherapp/WeatherDisplay.kt:127-140 | 06:12 against hours 06:00 and 07:00 with samples 55 and 60 gives 55 |
| WeatherDisplay.CurrentWeatherFields | WeatherApp/app/src/main/java/com/example/weatherapp/WeatherDisplay.kt:124-144 | sunrise and sunset are the time of day of element 0 of the daily lists or "Unavailable"; the condition is the classified current code; the humidity is the matched one; the wind speed stays in km/h |
| WeatherDisplay.TemperatureText | WeatherApp/app/src/main/java/com/example/weatherapp/WeatherDisplay.kt:349-350 | a NaN temperature is shown as "Unavailable" and a number as its degrees |
| WeatherDisplay.WindSpeedText | WeatherApp/app/src/main/java/com/example/weatherapp/WeatherDisplay.kt:377-380 | a NaN wind speed is shown as "Unavailable"; a number is passed on in km/h for conversion when it is formatted |
| WeatherDisplay.DayRowShowsNoSentinel | WeatherApp/app/src/main/java/com/example/weatherapp/WeatherDisplay.kt:348-350 | a day row shows a number only for a field whose list element was present |
| Location.Usable | WeatherApp/app/src/main/java/com/example/weatherapp/WeatherAppViewModel.kt:57 | a null or empty response is never usable; otherwise it is usable exactly when its first element has both a latitude and a longitude |
| Location.BeginSelection | WeatherApp/app/src/main/java/com/example/weatherapp/WeatherAppViewModel.kt:53-54 | the requested city is shown at once; coordinates and error message are unchanged |
| Location.CompleteSelection | WeatherApp/app/src/main/java/com/example/weatherapp/WeatherAppViewModel.kt:57-68 | on a usable response the coordinates come from its first element, the error is cleared, and the city is that element's name or stays the requested one; otherwise the city reverts, the error is "Failed to fetch location." and the coordinates are unchanged |
| Location.OnlyFirstElementConsulted | WeatherApp/app/src/main/java/com/example/weatherapp/WeatherAppViewModel.kt:57-61 | responses with the same first element give the same state |
| Location.FailedSelectionReverts | WeatherApp/app/src/main/java/com/example/weatherapp/WeatherAppViewModel.kt:53-68 | begin followed by a failed completion restores the earlier state, apart from the error message |
| Location.SuccessfulSelectionCommits | WeatherApp/app/src/main/java/com/example/weatherapp/WeatherAppViewModel.kt:53-64 | begin followed by a usable completion gives the response's coordinates, no error, and its name or else the requested city |
| Location.WeatherAppViewModel.constructor | WeatherApp/app/src/main/java/com/example/weatherapp/WeatherAppViewModel.kt:24-42 | starts at Tampere, 61.49, 23.78, with no error message |
| Location.WeatherAppViewModel.BeginSelect | WeatherApp/app/src/main/java/com/example/weatherapp/WeatherAppViewModel.kt:52-56 | remembers the shown city, shows the new one, and the lookup asks for the new one |
| Location.WeatherAppViewModel.Complete | WeatherApp/app/src/main/java/com/example/weatherapp/WeatherAppViewModel.kt:55-69 | the new fields are the completion transition applied to the old fields and the remembered city |
| Location.WeatherAppViewModel.DismissError | WeatherApp/app/src/main/java/com/example/weatherapp/WeatherDisplay.kt:63-64 | dismissing the alert clears the error message |
| Location.SelectCityFromStart | WeatherApp/app/src/main/java/com/example/weatherapp/WeatherAppViewModel.kt:52-70 | from the initial state, a selection ends at the response's location, or back at Tampere with the error message |
| DaySelection.DayForecastViewModel.constructor | WeatherApp/app/src/main/java/com/example/weatherapp/DayForecastViewModel.kt:13 | nothing is selected initially |
| DaySelection.DayForecastViewModel.SelectDayForecast | WeatherApp/app/src/main/java/com/example/weatherapp/DayForecastViewModel.kt:20-22 | the store holds the given day, replacing any earlier one |
| DaySelection.DayForecastViewModel.GetDayForecast | WeatherApp/app/src/main/java/com/example/weatherapp/DayForecastViewModel.kt:29-31 | returns the stored selection and changes nothing |
| DaySelection.NothingSelectedInitially | WeatherApp/app/src/main/java/com/example/weatherapp/DayForecastViewModel.kt:13-31 | a fresh store gives no day |
| DaySelection.LastSelectionWins | WeatherApp/app/src/main/java/com/example/weatherapp/DayForecastViewModel.kt:20-31 | after two selections the getter gives the second, and reading twice gives the same |

## Findings

| source | as written | input that shows it | evidently intended | confidence | as-written member | corrected member |
|---|---|---|---|---|---|---|
| WeatherApp/app/src/main/java/com/example/weatherapp/WeatherDisplay.kt:136-137 | the hourly humidity list is indexed at the matched time's position without a bounds check | current time "2024-05-01T06:12", hourly times ["2024-05-01T06:00"], humidity list [] | a missing sample shows "Unavailable", like every other missing data point of the screen | not executed; medium (Open-Meteo normally sends lists of equal length) | WeatherDisplay.HumidityAsWrittenFaults | WeatherDisplay.CurrentHumidity |

## Left out

- The network layer (Retrofit services, OkHttp client, timeouts, exception catching, the API key) is not modelled. Its results enter as `Option` inputs.
- JSON deserialisation is not modelled, and neither are `null` elements inside a list.
- Compose rendering, the composables' loading and error state, navigation and the application bootstrap are UI and are not modelled.
- The "Temperature Unavailable" text of the current screen is not modelled.
- Floating-point arithmetic and formatting are not modelled: the km/h to m/s division by 3.6 and the one-decimal rendering. Doubles are exact reals with a NaN sentinel. The model records only that wind speeds stay in km/h until they are formatted.
- The error log written on a failed date parse is not modelled.
- Strings.DropLast: lengths count Unicode scalar values, not the UTF-16 code units that Kotlin's `length` and `dropLast` count. The two differ only for characters outside the Basic Multilingual Plane, so the hour matcher is the same on ASCII timestamps.
- Calendar.ParseIsoDate: refuses the signed and more-than-four-digit years that `LocalDate.parse` also accepts (such as "+12024-01-01" or "-0001-01-01"). Only unsigned `YYYY-MM-DD` text is re-specified.
- Location.WeatherAppViewModel.BeginSelect: does not model concurrent selections. In the source each launched lookup keeps its own previous city and reads `city` when it runs. The model has one pending lookup at a time, and a second begin overwrites the remembered city.
- Location.WeatherAppViewModel.Complete: its contract does not state the remembered city afterwards. The source assigns it on success, but that value is never read again.
- Compose's observable-state notifications for the view-model fields are not modelled.
