/** The view-model that passes the selected day from the week list to the
    details screen: a one-slot store. */
module DaySelection {
  import opened Wrappers
  import opened Forecast

  class DayForecastViewModel {
    var selectedDayForecast: Option<DayForecast>

    constructor ()
      ensures selectedDayForecast.None?
    {
      selectedDayForecast := None;
    }

    /** `selectDayForecast`: the new selection replaces any earlier one. */
    method SelectDayForecast(dayForecast: DayForecast)
      modifies this
      ensures selectedDayForecast == Some(dayForecast)
    {
      selectedDayForecast := Some(dayForecast);
    }

    /** `getDayForecast`: the current selection; the store is left as it is. */
    method GetDayForecast() returns (r: Option<DayForecast>)
      ensures r == selectedDayForecast
    {
      r := selectedDayForecast;
    }
  }

  /** Nothing selected yet: the getter has nothing to give. */
  method NothingSelectedInitially() returns (r: Option<DayForecast>)
    ensures r.None?
  {
    var store := new DayForecastViewModel();
    r := store.GetDayForecast();
  }

  /** Of two selections the last one wins, and reading twice gives the same. */
  method LastSelectionWins(first: DayForecast, second: DayForecast) returns (r: Option<DayForecast>, again: Option<DayForecast>)
    ensures r == Some(second) && again == r
  {
    var store := new DayForecastViewModel();
    store.SelectDayForecast(first);
    store.SelectDayForecast(second);
    r := store.GetDayForecast();
    again := store.GetDayForecast();
  }
}
