/** `fetch_locations`: search the geocoding API for the query's city and turn
    its results into ranked `Location`s. */
module Geocoding {
  import opened Base
  import opened Http
  import opened Anyhow
  import opened WeatherQuery
  import opened Locations
  import opened Ranking

  /** The query string sent to the geocoding API. */
  datatype GeoQuery = GeoQuery(name: string, count: u32, language: string, format: string)

  /** The decoded body of a geocoding response. */
  datatype GeoContents = GeoContents(results: seq<GeoItem>)

  /** The geocoding search for a query: its city and count, in English, as JSON. */
  function GeoQueryFor(query: Query): (g: GeoQuery)
    ensures g.name == query.city && g.count == query.count
    ensures g.language == "en" && g.format == "json"
  {
    GeoQuery(query.city, query.count, "en", "json")
  }

  /** What `fetch_locations` yields for a query, given how the geocoding API
      answers each search: the search results, mapped and ranked by population,
      when the answer has status 200 and decodes; an error with no status of
      its own otherwise. */
  function SearchLocations(query: Query, geocoding: GeoQuery -> Reply<GeoContents>): (r: Result<seq<Location>, Error>)
    ensures r.Success? <==>
              geocoding(GeoQueryFor(query)).Received? && geocoding(GeoQueryFor(query)).status == OK
              && geocoding(GeoQueryFor(query)).body.Success?
    ensures r.Success? ==>
              r.value == RankByPopulation(ToLocations(geocoding(GeoQueryFor(query)).body.value.results))
    ensures r.Failure? ==> Unstatused(r.error)
  {
    match geocoding(GeoQueryFor(query))
    case SendFailed(reason) => Failure(Msg(reason))
    case Received(status, body) =>
      if status != OK then
        Failure(Msg("geocoding-api returned status " + NatToString(status)))
      else if body.Failure? then
        Failure(Context(Msg(body.error), Message("parsing geocoding-api response")))
      else
        Success(RankByPopulation(ToLocations(body.value.results)))
  }

  /** The successful result of a search holds exactly the mapped search
      results, ranked, and equal populations keep the API's order. */
  lemma LocationsRanked(query: Query, geocoding: GeoQuery -> Reply<GeoContents>, p: Option<u32>)
    requires SearchLocations(query, geocoding).Success?
    ensures var items := geocoding(GeoQueryFor(query)).body.value.results;
            var locs := SearchLocations(query, geocoding).value;
            multiset(locs) == multiset(ToLocations(items))
            && Ranked(locs)
            && WithPopulation(locs, p) == WithPopulation(ToLocations(items), p)
  {
    var items := geocoding(GeoQueryFor(query)).body.value.results;
    RankPermutes(ToLocations(items));
    RankIsRanked(ToLocations(items));
    RankIsStable(ToLocations(items), p);
  }

  /** `fetch_locations` step by step: send the search, check the status,
      decode, map into a vector and sort that vector in place. */
  method FetchLocations(query: Query, geocoding: GeoQuery -> Reply<GeoContents>)
    returns (r: Result<seq<Location>, Error>)
    ensures r == SearchLocations(query, geocoding)
  {
    var resp := geocoding(GeoQueryFor(query));
    if resp.SendFailed? {
      return Failure(Msg(resp.reason));
    }
    if resp.status != OK {
      return Failure(Msg("geocoding-api returned status " + NatToString(resp.status)));
    }
    if resp.body.Failure? {
      return Failure(Context(Msg(resp.body.error), Message("parsing geocoding-api response")));
    }
    var mapped := ToLocations(resp.body.value.results);
    var results := new Location[|mapped|](k requires 0 <= k < |mapped| => mapped[k]);
    assert results[..] == mapped;
    SortByPopulation(results);
    return Success(results[..]);
  }
}
