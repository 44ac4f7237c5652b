/** `fetch_weather`: ask the forecast API for the current temperature and rain
    at one location. */
module Forecast {
  import opened Base
  import opened Http
  import opened Anyhow
  import opened Locations

  /** The query string sent to the forecast API. */
  datatype ForecastQuery = ForecastQuery(latitude: F64, longitude: F64, current: string)

  /** The unit strings of a forecast response. */
  datatype Units = Units(temperature2m: string, rain: string)

  /** The current values of a forecast response. */
  datatype Data = Data(temperature2m: F64, rain: F64)

  /** The decoded body of a forecast response. */
  datatype ForecastContents = ForecastContents(currentUnits: Units, current: Data)

  /** The weather reported for a location, with the API's own unit strings. */
  datatype Weather = Weather(temp: F64, tempUnit: string, rain: F64, rainUnit: string)

  /** The forecast request for a location: its coordinates, asking for the
      current temperature and rain. */
  function ForecastQueryFor(location: Location): (q: ForecastQuery)
    ensures q.latitude == location.latitude && q.longitude == location.longitude
    ensures q.current == "temperature_2m,rain"
  {
    ForecastQuery(location.latitude, location.longitude, "temperature_2m,rain")
  }

  /** What `fetch_weather` yields for a location, given how the forecast API
      answers each request: the current values with their units when the
      answer has status 200 and decodes; an error with no status otherwise. */
  function FetchWeather(location: Location, forecast: ForecastQuery -> Reply<ForecastContents>)
    : (r: Result<Weather, Error>)
    ensures var resp := forecast(ForecastQueryFor(location));
            r.Success? <==> resp.Received? && resp.status == OK && resp.body.Success?
    ensures r.Success? ==>
              var c := forecast(ForecastQueryFor(location)).body.value;
              r.value.temp == c.current.temperature2m && r.value.tempUnit == c.currentUnits.temperature2m
              && r.value.rain == c.current.rain && r.value.rainUnit == c.currentUnits.rain
    ensures r.Failure? ==> Unstatused(r.error)
  {
    match forecast(ForecastQueryFor(location))
    case SendFailed(reason) => Failure(Msg(reason))
    case Received(status, body) =>
      if status != OK then
        Failure(Msg("forecast api returned status " + NatToString(status)))
      else if body.Failure? then
        Failure(Msg(body.error))
      else
        var c := body.value;
        Success(Weather(c.current.temperature2m, c.currentUnits.temperature2m, c.current.rain, c.currentUnits.rain))
  }

  /** For an upstream that answers the same query the same way, the weather
      of a location depends on its coordinates only: the request carries
      nothing else about the location. */
  lemma WeatherDependsOnCoordinates(l1: Location, l2: Location, forecast: ForecastQuery -> Reply<ForecastContents>)
    requires l1.latitude == l2.latitude && l1.longitude == l2.longitude
    ensures FetchWeather(l1, forecast) == FetchWeather(l2, forecast)
  {
  }
}
