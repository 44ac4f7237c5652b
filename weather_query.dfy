/** The weather service's query: the city to search for and how many matches
    to report, parsed from the request's query string. */
module WeatherQuery {
  import opened Base
  import opened Http
  import opened Anyhow

  datatype Query = Query(city: string, count: u32)

  /** The count used when the query string does not give one. */
  const DEFAULT_COUNT: u32 := 10

  /** `Query::default()`, used when the request has no query string at all. */
  function DefaultQuery(): (q: Query)
    ensures q.city == "Portland" && q.count == DEFAULT_COUNT
  {
    Query("Portland", DEFAULT_COUNT)
  }

  /** What `serde_qs::from_str` makes of a query string: the decoder's error,
      or the `city` field and the `count` field if the string gives one. */
  datatype QueryString =
    | Undecodable(reason: string)
    | Fields(city: string, count: Option<u32>)

  /** `get_query`: resolve the request's query string (`None` when the URI has
      none) into a `Query`, or an error carrying BAD_REQUEST. */
  function GetQuery(qs: Option<QueryString>): (r: Result<Query, Error>)
    ensures qs.None? ==> r == Success(DefaultQuery())
    ensures r.Success? ==> r.value.count >= 1
    ensures r.Success? && qs.Some? ==>
              qs.value.Fields? && r.value.city == qs.value.city
              && r.value.count == qs.value.count.GetOr(DEFAULT_COUNT)
    ensures r.Failure? <==> qs.Some? && (qs.value.Undecodable? || qs.value.count == Some(0))
    ensures r.Failure? ==> ErrorStatus(r.error) == BAD_REQUEST
  {
    match qs
    case None => Success(DefaultQuery())
    case Some(Undecodable(reason)) => Failure(Context(Msg(reason), Status(BAD_REQUEST)))
    case Some(Fields(city, count)) =>
      var query := Query(city, count.GetOr(DEFAULT_COUNT));
      if query.count == 0 then
        Failure(Context(Msg("nonzero count required"), Status(BAD_REQUEST)))
      else
        Success(query)
  }

  /** A query string that names a city but no count gets the default count. */
  lemma MissingCountDefaults(city: string)
    ensures GetQuery(Some(Fields(city, None))) == Success(Query(city, 10))
  {
  }
}
