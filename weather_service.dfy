/** The weather server: `handle` resolves the query, searches for locations,
    fetches the weather at every location concurrently and joins the results;
    `main` turns the outcome into an HTTP response. */
module WeatherService {
  import opened Base
  import opened Http
  import opened Anyhow
  import opened WeatherQuery
  import opened Locations
  import opened Ranking
  import opened Geocoding
  import opened Forecast
  import TryJoin

  /** The parts of an incoming request the server reads: its method, and what
      its query string decodes to (`None` when the URI has no query string). */
  datatype Request = Request(verb: Method, query: Option<QueryString>)

  /** One record of the response: a location and its weather. */
  datatype Item = Item(location: Location, weather: Weather)

  /** The upstream services as the server sees them, and when each per-location
      fetch resolves. */
  datatype Upstream = Upstream(
    geocoding: GeoQuery -> Reply<GeoContents>,
    forecast: ForecastQuery -> Reply<ForecastContents>,
    finish: nat -> nat)

  /** The future made for one location: its weather paired with it, or the
      fetch's error with the location's qualified name as context. */
  function FetchItem(location: Location, forecast: ForecastQuery -> Reply<ForecastContents>): (r: Result<Item, Error>)
    ensures r.Success? <==> FetchWeather(location, forecast).Success?
    ensures r.Success? ==> r.value == Item(location, FetchWeather(location, forecast).value)
    ensures r.Failure? ==> |r.error.chain| > 0 && r.error.chain[0] == Message("fetching weather for " + location.qualifiedName)
                           && Unstatused(r.error)
  {
    match FetchWeather(location, forecast)
    case Success(weather) => Success(Item(location, weather))
    case Failure(e) =>
      MessageContextKeepsStatus(e, "fetching weather for " + location.qualifiedName);
      Failure(Context(e, Message("fetching weather for " + location.qualifiedName)))
  }

  /** One future per location, in the locations' order. */
  function FetchAll(locations: seq<Location>, forecast: ForecastQuery -> Reply<ForecastContents>)
    : (r: seq<Result<Item, Error>>)
    ensures |r| == |locations|
    ensures forall i :: 0 <= i < |locations| ==> r[i] == FetchItem(locations[i], forecast)
  {
    seq(|locations|, i requires 0 <= i < |locations| => FetchItem(locations[i], forecast))
  }

  /** `handle`: the records to serialize, or the error to report. A method
      other than GET is refused before anything else; records are produced
      only when the query, the search and every fetch succeed, one per
      location found. */
  function Handle(req: Request, up: Upstream): (r: Result<seq<Item>, Error>)
    ensures req.verb != GET ==> r.Failure? && ErrorStatus(r.error) == METHOD_NOT_ALLOWED
    ensures r.Success? ==>
              req.verb == GET && GetQuery(req.query).Success?
              && SearchLocations(GetQuery(req.query).value, up.geocoding).Success?
              && |r.value| == |SearchLocations(GetQuery(req.query).value, up.geocoding).value|
  {
    if req.verb != GET then
      Failure(Context(Msg("unsupported method " + req.verb.name), Status(METHOD_NOT_ALLOWED)))
    else match GetQuery(req.query)
      case Failure(e) => Failure(Context(e, Message("getting location name")))
      case Success(query) =>
        match SearchLocations(query, up.geocoding)
        case Failure(e) => Failure(Context(e, Message("searching for location")))
        case Success(locations) => TryJoin.Join(FetchAll(locations, up.forecast), up.finish)
  }

  /** The body of a response: the JSON records, or the error's debug report. */
  datatype Body = Json(items: seq<Item>) | DebugReport(error: Error)

  datatype Response = Response(status: StatusCode, contentType: Option<string>, body: Body)

  /** `main`: status 200 with a JSON body on success; otherwise the status the
      error carries, or 500 when it carries none. */
  function Serve(req: Request, up: Upstream): (resp: Response)
    ensures var h := Handle(req, up);
            && (h.Success? ==> resp == Response(OK, Some("application/json"), Json(h.value)))
            && (h.Failure? ==> resp.body == DebugReport(h.error) && resp.status == ErrorStatus(h.error))
  {
    match Handle(req, up)
    case Success(items) => Response(OK, Some("application/json"), Json(items))
    case Failure(e) => Response(ErrorStatus(e), None, DebugReport(e))
  }

  /** Errors from the searches and fetches carry no status of their own. */
  lemma UpstreamErrorsUnstatused(req: Request, up: Upstream)
    requires req.verb == GET && GetQuery(req.query).Success?
    ensures Handle(req, up).Failure? ==> Unstatused(Handle(req, up).error)
  {
    var query := GetQuery(req.query).value;
    match SearchLocations(query, up.geocoding)
    case Failure(e) =>
      MessageContextKeepsStatus(e, "searching for location");
    case Success(locations) =>
      var items := FetchAll(locations, up.forecast);
      var r := TryJoin.Join(items, up.finish);
      if r.Failure? {
        var i :| 0 <= i < |items| && items[i] == Failure(r.error);
      }
  }

  /** The status of every response: 405 for any method but GET, before the
      query is looked at; 400 for a query string that does not decode or asks
      for zero locations; 200 when the search and every fetch succeed; 500 for
      any failure of the search or of a fetch. */
  lemma ResponseStatus(req: Request, up: Upstream)
    ensures Serve(req, up).status ==
      if req.verb != GET then METHOD_NOT_ALLOWED
      else if GetQuery(req.query).Failure? then BAD_REQUEST
      else if AllFetched(GetQuery(req.query).value, up) then OK
      else INTERNAL_SERVER_ERROR
  {
    if req.verb == GET {
      match GetQuery(req.query)
      case Failure(e) =>
        MessageContextKeepsStatus(e, "getting location name");
      case Success(query) =>
        UpstreamErrorsUnstatused(req, up);
        var found := SearchLocations(query, up.geocoding);
        if found.Success? {
          var items := FetchAll(found.value, up.forecast);
          assert forall i :: 0 <= i < |items| ==>
                   (items[i].Success? <==> FetchWeather(found.value[i], up.forecast).Success?);
        }
    }
  }

  /** The search for `query` succeeds and so does the weather fetch for every
      location it finds. */
  predicate AllFetched(query: Query, up: Upstream) {
    var found := SearchLocations(query, up.geocoding);
    found.Success? && forall i :: 0 <= i < |found.value| ==> FetchWeather(found.value[i], up.forecast).Success?
  }

  /** A request for zero locations is refused with 400 when it is a GET, and
      with 405 otherwise. */
  lemma ZeroCountRefused(req: Request, up: Upstream, city: string)
    requires req.query == Some(Fields(city, Some(0)))
    ensures Serve(req, up).status == if req.verb == GET then BAD_REQUEST else METHOD_NOT_ALLOWED
  {
    ResponseStatus(req, up);
  }

  /** A successful response lists, in ranking order, every location found,
      each with the weather fetched for it. */
  lemma SuccessShape(req: Request, up: Upstream)
    requires Serve(req, up).status == OK
    ensures req.verb == GET && GetQuery(req.query).Success?
    ensures var locations := SearchLocations(GetQuery(req.query).value, up.geocoding);
            var items := Serve(req, up).body.items;
            locations.Success? && |items| == |locations.value|
            && forall i :: 0 <= i < |items| ==>
                 items[i].location == locations.value[i]
                 && FetchWeather(locations.value[i], up.forecast) == Success(items[i].weather)
  {
    var locations := SearchLocations(GetQuery(req.query).value, up.geocoding);
    var items := Serve(req, up).body.items;
    forall i | 0 <= i < |items|
      ensures items[i].location == locations.value[i]
              && FetchWeather(locations.value[i], up.forecast) == Success(items[i].weather)
    {
      assert FetchAll(locations.value, up.forecast)[i] == Success(items[i]);
    }
  }

  /** If the weather fetch fails for any location found, the whole request
      fails with 500, never answering with part of the list; the error reported
      is a failed location's, named by its qualified name. */
  lemma FailFast(req: Request, up: Upstream, k: nat)
    requires req.verb == GET && GetQuery(req.query).Success?
    requires var locations := SearchLocations(GetQuery(req.query).value, up.geocoding);
             locations.Success? && k < |locations.value|
             && FetchWeather(locations.value[k], up.forecast).Failure?
    ensures Handle(req, up).Failure? && Serve(req, up).status == INTERNAL_SERVER_ERROR
    ensures var locations := SearchLocations(GetQuery(req.query).value, up.geocoding).value;
            exists i :: 0 <= i < |locations| && FetchWeather(locations[i], up.forecast).Failure?
                        && |Handle(req, up).error.chain| > 0 && Handle(req, up).error.chain[0] == Message("fetching weather for " + locations[i].qualifiedName)
  {
    var locations := SearchLocations(GetQuery(req.query).value, up.geocoding).value;
    var items := FetchAll(locations, up.forecast);
    var r := TryJoin.Join(items, up.finish);
    assert Handle(req, up) == r;
    assert items[k].Failure?;
    var i :| 0 <= i < |items| && items[i] == Failure(r.error);
    assert FetchItem(locations[i], up.forecast).Failure?;
    ResponseStatus(req, up);
  }

  /** Searching for Portland with count 2, when the geocoding API finds Portland
      (population 68000) and Portland (population 650000) in that order and the
      forecast API answers every request, gives 200 and two records, the larger
      city first. */
  lemma PortlandScenario(up: Upstream, small: GeoItem, large: GeoItem)
    requires small.population == Some(68000) && large.population == Some(650000)
    requires up.geocoding(GeoQuery("Portland", 2, "en", "json"))
             == Received(OK, Success(GeoContents([small, large])))
    requires forall q :: up.forecast(q).Received? && up.forecast(q).status == OK && up.forecast(q).body.Success?
    ensures var resp := Serve(Request(GET, Some(Fields("Portland", Some(2)))), up);
            resp.status == OK && |resp.body.items| == 2
            && resp.body.items[0].location.population == Some(650000)
            && resp.body.items[1].location.population == Some(68000)
  {
    var req := Request(GET, Some(Fields("Portland", Some(2))));
    var query := GetQuery(req.query).value;
    assert GeoQueryFor(query) == GeoQuery("Portland", 2, "en", "json");
    var mapped := ToLocations([small, large]);
    assert RankByPopulation(mapped[..1]) == [mapped[0]];
    assert Outranks(mapped[1].population, mapped[0].population);
    assert [mapped[0]][..0] == [];
    assert InsertRanked([mapped[0]], mapped[1]) == InsertRanked([], mapped[1]) + [mapped[0]];
    assert RankByPopulation(mapped) == InsertRanked([mapped[0]], mapped[1]);
    var locations := SearchLocations(query, up.geocoding).value;
    var items := FetchAll(locations, up.forecast);
    assert forall i :: 0 <= i < |items| ==> items[i].Success?;
    SuccessShape(req, up);
  }
}
