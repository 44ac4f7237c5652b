# wasi-http demos: weather aggregator and HMAC gate, modelled in Dafny

Two small HTTP servers, modelled as request → response functions over plain
datatypes.

**Weather service** (`weather/src/main.rs`). A request's query string names
a city and how many matches to report:
- no query string gives Portland, 10;
- a missing `count` gives 10;
- `count=0` is refused with 400.

Any method but GET is refused with 405, before the query is looked at. The
server then:
1. asks a geocoding API for matching places;
2. turns each result into a `Location` whose qualified name lists its
   administrative regions, most specific first;
3. sorts the locations by population, largest first, with unknown
   populations last, keeping ties in order (a stable sort);
4. fetches the current weather for every location concurrently;
5. answers 200 with every (location, weather) pair in that order, or an
   error.

An error's status is the `StatusCode` attached to it as context, or 500 when
none is attached.

**HMAC gate** (`hmac-auth/src/main.rs`). A request is authorized when its
`signature` header is the hex (Base16, section 8 of RFC 4648) encoding of the
HMAC-SHA256 (RFC 2104) of its URI under the server's secret key. The checks
run in this order:
1. the signature is present and is hex, else 400;
2. the method is GET, else 405;
3. the key decodes, else 500;
4. the MAC matches, else 401;
5. otherwise 200 with the body "authorized".

Modules:

| module | file | what |
|---|---|---|
| `Base` | base.dfy | `Option`, `Result`, `u32`, `byte`, opaque `f64` values |
| `Http` | http.dfy | status codes, methods, the outcome of an outbound request |
| `Anyhow` | anyhow.dfy | error chains with context layers, and `downcast_ref::<StatusCode>()` |
| `WeatherQuery` | weather_query.dfy | `Query`, `default_count`, `get_query` |
| `Locations` | locations.dfy | geocoding items, `qualified_name` (pure form and the step-by-step method), item → `Location` |
| `Ranking` | ranking.dfy | the population order, the stable sort as a function, and the in-place array insertion sort proved equal to it |
| `Geocoding` | geocoding.dfy | `fetch_locations` |
| `Forecast` | forecast.dfy | `fetch_weather` |
| `TryJoin` | try_join.dfy | the fan-in of `try_join` over the per-location futures |
| `WeatherService` | weather_service.dfy | `handle` and `main` of the weather server |
| `Hex` | hex.dfy | `hex::decode` and `hex::encode` |
| `HmacAuth` | hmac_auth.dfy | `secret_key`, `request_signature`, `handle` and `main` of the HMAC gate |

The outside world becomes parameters:
- each upstream API is a function from the query it is sent to a `Reply`. A
  `Reply` is either a send failure, or a status plus a body that did or did
  not decode;
- the HMAC is a function `mac(key, message)`;
- the configured `SECRET_KEY` is an `Option` argument;
- when each concurrent fetch resolves is a function `finish(i)`.

Where the code could be read otherwise, the model follows the code:
- An error without a status is answered with 500
  (`StatusCode::INTERNAL_SERVER_ERROR`), although the comments beside it say
  503.
- The geocoding response must contain a `results` field (`Contents` has no
  default for it). A response without one is a decode failure, answered
  with 500, not an empty list.

## Model

| member | source | states |
|---|---|---|
| Anyhow.Msg | weather/src/main.rs:173 | `anyhow!`/`bail!` make a one-layer error holding the message, with no status |
| Anyhow.Context | weather/src/main.rs:41 | `e.context(c)` puts `c` outermost and keeps the whole of `e` beneath it |
| Anyhow.DowncastStatus | weather/src/main.rs:337-338 | `downcast_ref::<StatusCode>()` is the outermost `StatusCode` layer: absent exactly when every layer is a message; otherwise the code of the status layer with only messages above it |
| Anyhow.ErrorStatus | weather/src/main.rs:333-339 | an error is answered with the code of its outermost `StatusCode` layer, and with 500 when it has no status layer |
| Anyhow.MessageContextKeepsStatus | weather/src/main.rs:41-46 | wrapping an error in a message context never changes the status it is answered with, and keeps a status-free error status-free |
| Anyhow.StatusContextDecides | weather/src/main.rs:38 | an error given a `StatusCode` as context is answered with that status |
| WeatherQuery.DefaultQuery | weather/src/main.rs:89-101 | `Query::default()` is city "Portland" with `default_count()` = 10 |
| WeatherQuery.GetQuery | weather/src/main.rs:104-120 | no query string gives the default query. A decoded query keeps its city, takes count 10 when none is given, and has count ≥ 1. It fails exactly when the string does not decode or gives count 0, and then carries BAD_REQUEST |
| WeatherQuery.MissingCountDefaults | weather/src/main.rs:85-91 | a query string giving a city and no count yields that city with count 10 |
| Locations.Opt | weather/src/main.rs:202-213 | an optional region contributes at most one name |
| Locations.Regions | weather/src/main.rs:200-216 | the present regions, most specific first, always end with `admin1` |
| Locations.JoinEndsWithLast | weather/src/main.rs:214 | joining a non-empty list of names ends with its last name |
| Locations.QualifiedNameEndsWithAdmin1 | weather/src/main.rs:200-216 | a qualified name always ends with `admin1`, and is exactly `admin1` when no optional region is present |
| Locations.QualifiedName | weather/src/main.rs:200-216 | the reference definition of a qualified name: the present regions joined by ", "; it always ends with `admin1` |
| Locations.BuildQualifiedName | weather/src/main.rs:200-216 | the step-by-step `push_str` construction equals the present admin4, admin3, admin2 names joined by ", " and followed by `admin1`; absent regions leave no empty segment |
| Locations.JoinOpt | weather/src/main.rs:202-213 | one optional region adds its name and ", " in front of the rest when present, nothing when absent |
| Locations.PushedRegionsJoin | weather/src/main.rs:201-215 | the text pushed for admin4, admin3, admin2 and then admin1 equals the qualified name |
| Locations.MultnomahExample | weather/src/main.rs:200-216 | admin2 "Multnomah County" and admin1 "Oregon", with no other regions, give "Multnomah County, Oregon" |
| Locations.ToLocation | weather/src/main.rs:230-239 | the `map` closure: a `Location` copying the item's name, population and coordinates, with the item's qualified name |
| Locations.ToLocations | weather/src/main.rs:227-240 | one `Location` per geocoding item, in order. Each copies the item's name, latitude, longitude and population, and carries its qualified name |
| Ranking.RankedMeans | weather/src/main.rs:241-242 | the ranked order means exactly: known populations non-increasing, and no `None` before a `Some` |
| Ranking.InsertRanked | weather/src/main.rs:242 | inserting one entry into a ranked list lengthens it by one |
| Ranking.RankByPopulation | weather/src/main.rs:242 | the stable sort keeps the length |
| Ranking.InsertRankedPermutes | weather/src/main.rs:242 | an insertion step adds exactly the inserted entry to the multiset |
| Ranking.InsertRankedMembers | weather/src/main.rs:242 | every entry after an insertion is the inserted one or an old one |
| Ranking.InsertRankedKeepsRanked | weather/src/main.rs:242 | inserting into a ranked list keeps it ranked |
| Ranking.InsertRankedStable | weather/src/main.rs:242 | inserting puts the new entry after every old entry with the same population |
| Ranking.WithPopulationSnoc | weather/src/main.rs:242 | filtering by population commutes with appending one entry |
| Ranking.RankPermutes | weather/src/main.rs:241-242 | the sorted list is a permutation of the mapped list |
| Ranking.RankIsRanked | weather/src/main.rs:241-242 | the sorted list is ranked: highest population first, unknown populations last |
| Ranking.RankIsStable | weather/src/main.rs:241-242 | the sort is stable: for every population, its entries keep their input order |
| Ranking.InsertRankedAt | weather/src/main.rs:242 | the inserted entry lands just after the last entry it does not outrank |
| Ranking.ShiftedLayout | weather/src/main.rs:242 | after one shifting pass, the array holds the prefix with the moved entry inserted, then the untouched suffix |
| Ranking.InsertIntoPrefix | weather/src/main.rs:242 | one pass of the in-place sort inserts `a[i]` into the ranked prefix `a[..i]` and leaves the rest of the array alone |
| Ranking.SortByPopulation | weather/src/main.rs:241-242 | the in-place sort of the `Vec<Location>` leaves exactly the stable population ranking of its old contents |
| Geocoding.GeoQueryFor | weather/src/main.rs:148-153 | the geocoding search asks for the query's city and count, in language "en", format "json" |
| Geocoding.SearchLocations | weather/src/main.rs:137-244 | succeeds exactly when the API answers 200 with a body that decodes. It then yields the mapped results, ranked. Every failure (send error, status other than 200, decode error) carries no status |
| Geocoding.LocationsRanked | weather/src/main.rs:227-243 | found locations are a permutation of the mapped results, are ranked, and keep the API's order among equal populations |
| Geocoding.FetchLocations | weather/src/main.rs:137-244 | `fetch_locations` with the in-place array sort gives exactly the result specified above |
| Forecast.ForecastQueryFor | weather/src/main.rs:267-271 | the forecast request carries the location's coordinates and asks for "temperature_2m,rain" |
| Forecast.FetchWeather | weather/src/main.rs:258-321 | succeeds exactly when the API answers 200 with a body that decodes. It then reports the current temperature and rain with the API's unit strings. Every failure carries no status |
| Forecast.WeatherDependsOnCoordinates | weather/src/main.rs:267-271 | for an upstream that answers the same query the same way, two locations with the same coordinates get the same weather outcome: the request carries only the coordinates |
| TryJoin.EarliestFailure | weather/src/main.rs:68-74 | the failed future that resolves first, absent exactly when none failed |
| TryJoin.Join | weather/src/main.rs:56-74 | the join succeeds exactly when every future succeeds, and then yields all values in input order. Otherwise it yields the error of one of the failed futures |
| TryJoin.JoinSuccessIgnoresTiming | weather/src/main.rs:68-74 | when every future succeeds, the outcome does not depend on when each resolves |
| TryJoin.AnyFailureMayWin | weather/src/main.rs:72-74 | which failure is reported is not determined: any failed future's error is the result when it resolves first |
| WeatherService.FetchItem | weather/src/main.rs:60-65 | a location's future pairs it with its weather. On failure, the error has "fetching weather for <qualified name>" as its outermost context and no status |
| WeatherService.FetchAll | weather/src/main.rs:56-67 | one future per location, in the locations' order |
| WeatherService.Handle | weather/src/main.rs:35-78 | a method other than GET fails with 405 before the query is read; records come only when the query and the search succeed, one per location found. The full outcome is given by WeatherService.ResponseStatus, WeatherService.SuccessShape and WeatherService.FailFast |
| WeatherService.Serve | weather/src/main.rs:326-346 | success is 200 with content type application/json and the records. An error is answered with its own status (500 without one) and its debug report |
| WeatherService.UpstreamErrorsUnstatused | weather/src/main.rs:41-74 | after the query is accepted, every error (search or fetch) carries no status |
| WeatherService.ResponseStatus | weather/src/main.rs:35-78 | every response's status: 405 for a non-GET, whatever its query; else 400 for a bad query or count 0; else 200 when the geocoding search succeeds and the weather fetch succeeds for every location it found; else 500 |
| WeatherService.ZeroCountRefused | weather/src/main.rs:36-41 | `count=0` is 400 for a GET and 405 for any other method, because the method is checked first |
| WeatherService.SuccessShape | weather/src/main.rs:56-78 | a 200 answer lists exactly the locations found, in ranked order, with record i pairing location i with the weather fetched for it |
| WeatherService.FailFast | weather/src/main.rs:56-74 | if any location's weather fetch fails, the request fails with 500 and no partial list. The error names a failed location by its qualified name |
| WeatherService.PortlandScenario | weather/src/main.rs:35-78 | two Portlands found with populations 68000 and 650000 give 200 and two records, the larger first |
| Hex.DigitValue | hmac-auth/src/main.rs:56 | a byte is a hex digit exactly when it is 0-9, A-F or a-f, and its value is below 16; the values themselves are fixed by Hex.EncodeDigitValue |
| Hex.DecodePairs | hmac-auth/src/main.rs:56 | an even run of digits decodes exactly when every byte is a digit, to half as many bytes, each spelt by its digit pair. Otherwise the error names a non-digit in the run and its position |
| Hex.Decode | hmac-auth/src/main.rs:17 | `hex::decode` succeeds exactly on an even number of hex digits, giving one byte per digit pair. An odd length is reported before any digit is looked at; otherwise a non-digit and its position are reported |
| Hex.DecodePairsNamesFirst | hmac-auth/src/main.rs:56 | every byte before the one a failed decoding names is a digit |
| Hex.DecodeNamesFirst | hmac-auth/src/main.rs:56 | the invalid character reported for an even-length input is the first non-digit |
| Hex.EncodeDigit | hmac-auth/sign/src/main.rs:24 | the lower-case digit written for a value decodes back to it |
| Hex.Encode | hmac-auth/sign/src/main.rs:24 | `hex::encode` writes two digits per byte |
| Hex.EncodeAt | hmac-auth/sign/src/main.rs:24 | byte k is written as its high then low digit at positions 2k and 2k+1 |
| Hex.DecodeEncode | hmac-auth/sign/src/main.rs:24 | decoding what `hex::encode` wrote gives back the bytes |
| Hex.EncodeDigitValue | hmac-auth/src/main.rs:56 | every hex digit's value is the value whose lower-case digit is that digit lowered: 0-9 are 0-9, and both A-F and a-f are 10-15 |
| Hex.EncodeDecode | hmac-auth/src/main.rs:56 | encoding a decoded signature gives back its digits with `A`-`F` lowered, so an upper-case signature stands for the same bytes as its lower-case form |
| HmacAuth.SecretKey | hmac-auth/src/main.rs:14-18 | the key is the hex decoding of the configured value, or of "12345678" when none is configured. A key that does not decode gives an error with no status |
| HmacAuth.DefaultKey | hmac-auth/src/main.rs:14-18 | with no key configured, the key is the bytes 12 34 56 78 |
| HmacAuth.RequestSignature | hmac-auth/src/main.rs:50-57 | the decoded `signature` header, failing exactly when it is missing or not hex, and then carrying BAD_REQUEST |
| HmacAuth.HexErrorText | hmac-auth/src/main.rs:17 | the text of a `hex` decoding error: "Odd number of digits" exactly for an odd length; otherwise a message quoting the offending character and ending with its position |
| HmacAuth.Handle | hmac-auth/src/main.rs:23-46 | a request is authorized exactly when its signature decodes, its method is GET, the key decodes and the MAC of the URI equals the signature, and the result is then "authorized"; a missing signature fails with 400. Each failure's status is given by HmacAuth.ResponseStatus |
| HmacAuth.Serve | hmac-auth/src/main.rs:62-81 | success is 200 with the handler's text. An error is answered with its own status (500 without one) and its debug report |
| HmacAuth.ResponseStatus | hmac-auth/src/main.rs:23-46 | every response's status, in check order: 400 for a missing or non-hex signature, whatever the method; else 405 for non-GET; else 500 when the key does not decode; else 401 when the MAC of the URI differs from the signature; else 200 with body "authorized" |
| HmacAuth.SignedRequestAuthorized | hmac-auth/src/main.rs:32-45 | a GET carrying the hex of the MAC of its URI under the server's key, as the signing tool prints it, is answered 200 "authorized" |

## Left out

- Outbound HTTP (building URIs, the `User-Agent` header, `Client::send`) and the `Responder`: each upstream call is a parameter returning a send failure, or a status plus a decoded body or decode error.
- Failures of `serde_qs::to_string`, `Uri::builder().build()` and `Request::builder().body()` inside `fetch_locations` and `fetch_weather`: they are not modelled. The scheme, authority and paths are constants, and `serde_qs` percent-encodes the user's city, so the URI always builds.
- serde, serde_qs and serde_json: the query string is given already decoded (`QueryString`), JSON bodies as decoded records, and `serde_json::to_string` of the records ("serializing result to json") is taken to succeed; the JSON text itself is not modelled.
- The debug-formatted error bodies: a response carries the `Error` value itself; the exact text of `{e:?}` and of status codes formatted with `{:?}` is not modelled, and `hex`'s message quotes the offending character without the escaping Rust's `{:?}` applies to quotes, backslashes and control characters.
- The concurrency of `try_join`: only its outcome is modelled, with the order in which the futures resolve as the parameter `finish`; cancellation of the remaining futures is not modelled.
- Floating-point values (coordinates, temperature, rain) are carried as bit patterns and never computed on.
- HMAC-SHA256 itself and the constant-time comparison of `verify_slice`: the MAC is the parameter `mac`, compared by equality. `Hmac::new_from_slice` accepts keys of any length, so its "constucting hmac" error cannot arise and is not modelled.
- Request headers are reduced to the value of `signature`; how `Uri` renders to a string is not modelled (the URI is given as its bytes).
- hmac-auth/sign/src/main.rs (argument and environment handling, printing) is not part of this model beyond `hex::encode`; jaq/src/main.rs and src/main.rs are not part of this model.
- Hex.DecodePairs: its own contract says only that the reported character is some non-digit in the run; that it is the first one is stated separately by Hex.DecodePairsNamesFirst.
