/** The location view-model: the selected city, its coordinates and the
    error message shown when a lookup fails. `selectCity` is modelled as
    two synchronous steps, the optimistic update and the completion of the
    geocoding lookup. */
module Location {
  import opened Wrappers

  /** One element of the geocoding response. */
  datatype GeoCodeResponse = GeoCodeResponse(name: Option<string>, lat: Option<real>, lon: Option<real>)

  /** The observable fields of the view-model. */
  datatype LocationState = LocationState(
    city: string,
    latitude: real,
    longitude: real,
    errorMessage: Option<string>)

  const InitialState := LocationState("Tampere", 61.49, 23.78, None)

  const FetchFailed := "Failed to fetch location."

  /** A response the view-model accepts: non-empty, its first element
      carrying both coordinates. */
  function Usable(response: Option<seq<GeoCodeResponse>>): (r: bool)
    ensures response.None? ==> !r
    ensures response.Some? && response.value == [] ==> !r
    ensures response.Some? && response.value != [] ==>
              (r <==> response.value[0].lat.Some? && response.value[0].lon.Some?)
  {
    response.Some? && |response.value| > 0
    && response.value[0].lat.Some? && response.value[0].lon.Some?
  }

  /** The optimistic step: the requested city is shown at once. */
  function BeginSelection(s: LocationState, newCity: string): (r: LocationState)
    ensures r.city == newCity
    ensures r.latitude == s.latitude && r.longitude == s.longitude && r.errorMessage == s.errorMessage
  {
    s.(city := newCity)
  }

  /** The completion step, `prevCity` being the city shown before the
      selection began. */
  function CompleteSelection(s: LocationState, prevCity: string, response: Option<seq<GeoCodeResponse>>): (r: LocationState)
    ensures Usable(response) ==>
              r.latitude == response.value[0].lat.value
              && r.longitude == response.value[0].lon.value
              && r.errorMessage.None?
              && r.city == (if response.value[0].name.Some? then response.value[0].name.value else s.city)
    ensures !Usable(response) ==>
              r.city == prevCity && r.errorMessage == Some(FetchFailed)
              && r.latitude == s.latitude && r.longitude == s.longitude
  {
    if Usable(response) then
      var first := response.value[0];
      var city := if first.name.Some? then first.name.value else s.city;
      LocationState(city, first.lat.value, first.lon.value, None)
    else
      s.(errorMessage := Some(FetchFailed), city := prevCity)
  }

  /** Only the first element of a response is consulted. */
  lemma OnlyFirstElementConsulted(s: LocationState, prevCity: string, first: GeoCodeResponse,
                                  rest1: seq<GeoCodeResponse>, rest2: seq<GeoCodeResponse>)
    ensures CompleteSelection(s, prevCity, Some([first] + rest1))
         == CompleteSelection(s, prevCity, Some([first] + rest2))
  {
  }

  /** A failed lookup undoes the optimistic step: the state is the one
      before the selection, but for the error message. */
  lemma FailedSelectionReverts(s: LocationState, newCity: string, response: Option<seq<GeoCodeResponse>>)
    requires !Usable(response)
    ensures CompleteSelection(BeginSelection(s, newCity), s.city, response)
         == s.(errorMessage := Some(FetchFailed))
  {
  }

  /** A successful lookup does not depend on the state it replaces, except
      for the requested city when the response has no name. */
  lemma SuccessfulSelectionCommits(s: LocationState, newCity: string, response: Option<seq<GeoCodeResponse>>)
    requires Usable(response)
    ensures var r := CompleteSelection(BeginSelection(s, newCity), s.city, response);
      r == LocationState(
        if response.value[0].name.Some? then response.value[0].name.value else newCity,
        response.value[0].lat.value, response.value[0].lon.value, None)
  {
  }

  /** `WeatherAppViewModel`. `prevCity` is the local variable of
      `selectCity` that the launched lookup reads back on failure;
      `awaitingResponse` says that a lookup has been launched and has not
      completed. */
  class WeatherAppViewModel {
    var city: string
    var latitude: real
    var longitude: real
    var errorMessage: Option<string>
    var prevCity: string
    var awaitingResponse: bool

    function State(): LocationState
      reads this
    {
      LocationState(city, latitude, longitude, errorMessage)
    }

    constructor ()
      ensures State() == InitialState && !awaitingResponse
    {
      city := "Tampere";
      latitude := 61.49;
      longitude := 23.78;
      errorMessage := None;
      prevCity := "Tampere";
      awaitingResponse := false;
    }

    /** The city the launched lookup asks the geocoder for. */
    function RequestedCity(): string
      reads this
    {
      city
    }

    /** First half of `selectCity`: remember the shown city, show the new
        one, and launch the lookup. */
    method BeginSelect(newCity: string)
      modifies this
      ensures State() == BeginSelection(old(State()), newCity)
      ensures prevCity == old(city) && awaitingResponse
      ensures RequestedCity() == newCity
    {
      prevCity := city;
      city := newCity;
      awaitingResponse := true;
    }

    /** Second half of `selectCity`: the lookup's response arrives. */
    method Complete(response: Option<seq<GeoCodeResponse>>)
      requires awaitingResponse
      modifies this
      ensures State() == CompleteSelection(old(State()), old(prevCity), response)
      ensures !awaitingResponse
    {
      if Usable(response) {
        latitude := response.value[0].lat.value;
        longitude := response.value[0].lon.value;
        if response.value[0].name.Some? {
          city := response.value[0].name.value;
        }
        prevCity := city;
        errorMessage := None;
      } else {
        errorMessage := Some(FetchFailed);
        city := prevCity;
      }
      awaitingResponse := false;
    }

    /** The error dialog's dismiss action clears the message. */
    method DismissError()
      modifies this`errorMessage
      ensures errorMessage.None?
    {
      errorMessage := None;
    }
  }

  /** A whole `selectCity` on a fresh view-model: the shown state after the
      lookup completes. */
  method SelectCityFromStart(newCity: string, response: Option<seq<GeoCodeResponse>>) returns (r: LocationState)
    ensures Usable(response) ==>
              r == LocationState(
                if response.value[0].name.Some? then response.value[0].name.value else newCity,
                response.value[0].lat.value, response.value[0].lon.value, None)
    ensures !Usable(response) ==> r == InitialState.(errorMessage := Some(FetchFailed))
  {
    var vm := new WeatherAppViewModel();
    vm.BeginSelect(newCity);
    vm.Complete(response);
    r := vm.State();
  }
}
