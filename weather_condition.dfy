/** Classification of WMO weather codes into a title and an icon. */
module Conditions {
  import opened Wrappers

  /** The drawable resources the classifier refers to. */
  datatype Icon =
    | ClearIcon | PartlyCloudyIcon | OvercastIcon | FoggyIcon | DrizzleIcon
    | ShowersIcon | RainIcon | SnowIcon | ThunderIcon | ErrorIcon

  datatype WeatherCondition = WeatherCondition(weatherTitle: string, iconId: Icon)

  const Unknown := WeatherCondition("Weather condition unknown.", ErrorIcon)

  /** One row of the WMO code table: the codes and what they mean. */
  datatype Row = Row(codes: set<int>, condition: WeatherCondition)

  /** The code table in ascending code order, an ordering independent of
      the order of the classifier's branches. */
  const Table: seq<Row> := [
    Row({0}, WeatherCondition("Clear", ClearIcon)),
    Row({1, 2}, WeatherCondition("Partly Cloudy", PartlyCloudyIcon)),
    Row({3}, WeatherCondition("Overcast", OvercastIcon)),
    Row({45, 48}, WeatherCondition("Foggy", FoggyIcon)),
    Row({51, 53, 55}, WeatherCondition("Drizzle", DrizzleIcon)),
    Row({56, 57}, WeatherCondition("Icy Drizzle", DrizzleIcon)),
    Row({61, 63, 65}, WeatherCondition("Rain", RainIcon)),
    Row({66, 67}, WeatherCondition("Icy Rain", RainIcon)),
    Row({71, 73, 75}, WeatherCondition("Snow", SnowIcon)),
    Row({77}, WeatherCondition("Snow Grains", SnowIcon)),
    Row({80, 81, 82}, WeatherCondition("Showers", ShowersIcon)),
    Row({85, 86}, WeatherCondition("Snow Showers", SnowIcon)),
    Row({95, 96, 99}, WeatherCondition("Thunder Storm", ThunderIcon))
  ]

  /** `getWeatherByCode`: the branches are tried in the source's order. */
  function GetWeatherByCode(weathercode: Option<int>): (r: WeatherCondition)
    ensures forall k :: 0 <= k < |Table| ==>
              (r == Table[k].condition <==> weathercode.Some? && weathercode.value in Table[k].codes)
    ensures weathercode.None? ==> r == Unknown
  {
    match weathercode
    case None => Unknown
    case Some(c) =>
      if c == 0 then WeatherCondition("Clear", ClearIcon)
      else if c == 1 || c == 2 then WeatherCondition("Partly Cloudy", PartlyCloudyIcon)
      else if c == 3 then WeatherCondition("Overcast", OvercastIcon)
      else if c == 45 || c == 48 then WeatherCondition("Foggy", FoggyIcon)
      else if c == 51 || c == 53 || c == 55 then WeatherCondition("Drizzle", DrizzleIcon)
      else if c == 80 || c == 81 || c == 82 then WeatherCondition("Showers", ShowersIcon)
      else if c == 61 || c == 63 || c == 65 then WeatherCondition("Rain", RainIcon)
      else if c == 56 || c == 57 then WeatherCondition("Icy Drizzle", DrizzleIcon)
      else if c == 66 || c == 67 then WeatherCondition("Icy Rain", RainIcon)
      else if c == 77 then WeatherCondition("Snow Grains", SnowIcon)
      else if c == 85 || c == 86 then WeatherCondition("Snow Showers", SnowIcon)
      else if c == 71 || c == 73 || c == 75 then WeatherCondition("Snow", SnowIcon)
      else if c == 95 || c == 96 || c == 99 then WeatherCondition("Thunder Storm", ThunderIcon)
      else Unknown
  }

  /** The code sets of the table are pairwise disjoint and its titles are
      pairwise distinct, so no code could be claimed by two branches. */
  lemma TableIsUnambiguous()
    ensures forall i, j :: 0 <= i < j < |Table| ==> Table[i].codes * Table[j].codes == {}
    ensures forall i, j :: 0 <= i < j < |Table| ==>
              Table[i].condition.weatherTitle != Table[j].condition.weatherTitle
  {
  }

  /** A code is classified as a row's condition exactly when it is among
      that row's codes: the branch order of the classifier does not matter. */
  lemma ClassifiedByTable(c: int, k: int)
    requires 0 <= k < |Table|
    ensures GetWeatherByCode(Some(c)) == Table[k].condition <==> c in Table[k].codes
  {
  }

  /** Any code outside the table, and an absent code, is unknown. */
  lemma UnknownExactly(code: Option<int>)
    ensures GetWeatherByCode(code) == Unknown <==>
              code.None? || forall k :: 0 <= k < |Table| ==> code.value !in Table[k].codes
  {
    if code.Some? && GetWeatherByCode(code) != Unknown {
      var c := code.value;
      assert c in Table[0].codes || c in Table[1].codes || c in Table[2].codes
        || c in Table[3].codes || c in Table[4].codes || c in Table[5].codes
        || c in Table[6].codes || c in Table[7].codes || c in Table[8].codes
        || c in Table[9].codes || c in Table[10].codes || c in Table[11].codes
        || c in Table[12].codes;
    }
  }

  lemma ClearCloudyOvercast(c: int)
    ensures GetWeatherByCode(Some(c)).weatherTitle == "Clear" <==> c == 0
    ensures GetWeatherByCode(Some(c)).weatherTitle == "Partly Cloudy" <==> c == 1 || c == 2
    ensures GetWeatherByCode(Some(c)).weatherTitle == "Overcast" <==> c == 3
  {
  }

  lemma FogAndDrizzle(c: int)
    ensures GetWeatherByCode(Some(c)).weatherTitle == "Foggy" <==> c == 45 || c == 48
    ensures GetWeatherByCode(Some(c)).weatherTitle == "Drizzle" <==> c in {51, 53, 55}
    ensures GetWeatherByCode(Some(c)).weatherTitle == "Icy Drizzle" <==> c in {56, 57}
    ensures GetWeatherByCode(Some(c)).iconId == DrizzleIcon <==> c in {51, 53, 55, 56, 57}
  {
  }

  lemma RainAndShowers(c: int)
    ensures GetWeatherByCode(Some(c)).weatherTitle == "Rain" <==> c in {61, 63, 65}
    ensures GetWeatherByCode(Some(c)).weatherTitle == "Icy Rain" <==> c in {66, 67}
    ensures GetWeatherByCode(Some(c)).iconId == RainIcon <==> c in {61, 63, 65, 66, 67}
    ensures GetWeatherByCode(Some(c)).weatherTitle == "Showers" <==> 80 <= c <= 82
  {
  }

  lemma SnowAndThunder(c: int)
    ensures GetWeatherByCode(Some(c)).weatherTitle == "Snow" <==> c in {71, 73, 75}
    ensures GetWeatherByCode(Some(c)).weatherTitle == "Snow Grains" <==> c == 77
    ensures GetWeatherByCode(Some(c)).weatherTitle == "Snow Showers" <==> c in {85, 86}
    ensures GetWeatherByCode(Some(c)).iconId == SnowIcon <==> c in {71, 73, 75, 77, 85, 86}
    ensures GetWeatherByCode(Some(c)).weatherTitle == "Thunder Storm" <==> c in {95, 96, 99}
  {
  }
}
