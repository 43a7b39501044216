/**
 * The API route of src/app/api/route.ts: the `GET` handler validates the
 * request, geocodes origin and destination, builds the booking query, calls
 * the booking service and shapes the 200/400/500 response.
 *
 * Everything outside the handler is a parameter: `process.env` is a
 * configuration record, the two upstream services are oracles from request to
 * reply, and which of two failing geocodes rejects first (a matter of timing
 * in `Promise.all`) is a boolean. The handler returns its response together
 * with the list of upstream calls it made.
 */
module Route {
  import opened Wrappers
  import opened Decimal
  import opened Query

  const RequiredParamsMessage := "Origin, destination and passengersCount are required params"
  const RapidApiKeyMessage := "RAPIDAPI_KEY is not defined"
  const RapidApiEndpointMessage := "RAPIDAPI_ENDPOINT is not defined"
  const GeocodeFailedMessage := "Failed to fetch geocode"
  const DaytripConfigMessage := "DAYTRIPAPI_ENDPOINT or DAYTRIPAPI_KEY is not defined"
  const DaytripKeyMessage := "DAYTRIPAPI_KEY is not defined"

  /** The `process.env` values the route reads; None when unset. */
  datatype Config = Config(
    rapidApiKey: Option<string>,
    rapidApiEndpoint: Option<string>,
    daytripApiEndpoint: Option<string>,
    daytripApiKey: Option<string>)

  /** JavaScript truthiness of an optional string: unset and "" are both falsy. */
  predicate Defined(v: Option<string>) {
    v.Some? && v.value != ""
  }

  /** `searchParams.get(k) || undefined`: the empty string becomes absent. */
  function NonEmpty(v: Option<string>): (r: Option<string>)
    ensures r.Some? <==> Defined(v)
    ensures r.Some? ==> r == v
  {
    if Defined(v) then v else None
  }

  /** A coordinate, kept as the text `String()` gives for the upstream number. */
  type Coordinate = string

  datatype Geocode = Geocode(address: string, lat: Coordinate, lng: Coordinate)

  /** The geocoding request: `GET <endpoint>?address=<address>` with the key in a header. */
  datatype GeocodeRequest = GeocodeRequest(endpoint: string, apiKey: string, address: string)

  /** The geocoder's JSON reply. */
  datatype GeocodeReply = GeocodeReply(status: string, address: string, latitude: Coordinate, longitude: Coordinate)

  /** A URL before serialisation: the endpoint and its ordered query pairs. */
  datatype Url = Url(endpoint: string, params: Pairs)

  datatype BookingRequest = BookingRequest(url: Url, apiKey: string)

  /** The booking reply: `response.ok`, the parsed body and the body's `message` field. */
  datatype BookingReply<B> = BookingReply(ok: bool, body: B, message: Option<string>)

  /**
   * What the handler runs against. An oracle's Failure is a rejected `fetch`
   * or `response.json()` with its error message.
   */
  datatype Env<B> = Env(
    config: Config,
    geocoder: GeocodeRequest -> Result<GeocodeReply>,
    booking: BookingRequest -> Result<BookingReply<B>>,
    originRejectsFirst: bool)

  datatype Call = GeocodeCall(geocode: GeocodeRequest) | BookingCall(booking: BookingRequest)

  /** The outcome of one async helper and the upstream calls it made. */
  datatype Step<T> = Step(result: Result<T>, calls: seq<Call>)

  datatype Body<B> =
    | ErrorBody(error: string)
    | RouteBody(originReturned: string, destinationReturned: string, daytripResponse: B)

  datatype Response<B> = Response(status: nat, body: Body<B>)

  datatype Handled<B> = Handled(response: Response<B>, calls: seq<Call>)

  // ---------------------------------------------------------------------------
  // getAddressGeoCode

  /** The request `getAddressGeoCode` sends, once the key and the endpoint are both set. */
  function GeocodeRequestFor(cfg: Config, address: string): GeocodeRequest
    requires Defined(cfg.rapidApiKey) && Defined(cfg.rapidApiEndpoint)
  {
    GeocodeRequest(cfg.rapidApiEndpoint.value, cfg.rapidApiKey.value, address)
  }

  /**
   * `getAddressGeoCode`: the key is checked before the endpoint; a reply
   * whose status is not exactly "success" fails; a successful reply is
   * renamed field by field.
   */
  function GetAddressGeoCode<B>(env: Env<B>, address: string): (s: Step<Geocode>)
    ensures !Defined(env.config.rapidApiKey) ==> s == Step(Failure(RapidApiKeyMessage), [])
    ensures Defined(env.config.rapidApiKey) && !Defined(env.config.rapidApiEndpoint)
            ==> s == Step(Failure(RapidApiEndpointMessage), [])
    ensures s.calls != [] <==> Defined(env.config.rapidApiKey) && Defined(env.config.rapidApiEndpoint)
    ensures s.calls != [] ==> s.calls == [GeocodeCall(GeocodeRequestFor(env.config, address))]
    ensures s.result.Success? <==>
              s.calls != [] && var reply := env.geocoder(GeocodeRequestFor(env.config, address));
              reply.Success? && reply.value.status == "success"
    ensures s.result.Success? ==>
              var reply := env.geocoder(GeocodeRequestFor(env.config, address)).value;
              s.result.value == Geocode(reply.address, reply.latitude, reply.longitude)
    ensures s.calls != [] ==>
              var reply := env.geocoder(GeocodeRequestFor(env.config, address));
              && (reply.Failure? ==> s.result == Failure(reply.message))
              && (reply.Success? && reply.value.status != "success" ==> s.result == Failure(GeocodeFailedMessage))
  {
    var cfg := env.config;
    if !Defined(cfg.rapidApiKey) then Step(Failure(RapidApiKeyMessage), [])
    else if !Defined(cfg.rapidApiEndpoint) then Step(Failure(RapidApiEndpointMessage), [])
    else
      var request := GeocodeRequestFor(cfg, address);
      var outcome :=
        match env.geocoder(request)
        case Failure(m) => Failure(m)
        case Success(reply) =>
          if reply.status != "success" then Failure(GeocodeFailedMessage)
          else Success(Geocode(reply.address, reply.latitude, reply.longitude));
      Step(outcome, [GeocodeCall(request)])
  }

  // ---------------------------------------------------------------------------
  // createDaytripApiUrl

  /** Only the exact string "true" is forwarded as "true". */
  function FlagText(v: Option<string>): (t: string)
    ensures t == "true" || t == "false"
    ensures t == "true" <==> v == Some("true")
  {
    if v == Some("true") then "true" else "false"
  }

  const BookingKeys := ["originLongitude", "originLatitude", "destinationLongitude", "destinationLatitude",
                        "departureTime", "passengersCount", "includeStops", "includeNonEnglishSpeaking"]

  /** The booking query pairs, in the order `createDaytripApiUrl` appends them. */
  function BookingParams(origin: Geocode, destination: Geocode, date: string, passengersCount: Num,
                         includeStops: Option<string>, includeNonEnglishSpeaking: Option<string>): Pairs
  {
    [("originLongitude", origin.lng), ("originLatitude", origin.lat),
     ("destinationLongitude", destination.lng), ("destinationLatitude", destination.lat),
     ("departureTime", date), ("passengersCount", passengersCount.ToString()),
     ("includeStops", FlagText(includeStops)),
     ("includeNonEnglishSpeaking", FlagText(includeNonEnglishSpeaking))]
  }

  /** What `createDaytripApiUrl` returns or throws. */
  function DaytripApiUrl(cfg: Config, origin: Geocode, destination: Geocode, date: string, passengersCount: Num,
                         includeStops: Option<string>, includeNonEnglishSpeaking: Option<string>): Result<Url>
  {
    if !Defined(cfg.daytripApiEndpoint) || !Defined(cfg.daytripApiKey) then Failure(DaytripConfigMessage)
    else Success(Url(cfg.daytripApiEndpoint.value,
                     BookingParams(origin, destination, date, passengersCount, includeStops, includeNonEnglishSpeaking)))
  }

  /** `createDaytripApiUrl`: checks the configuration, then appends the eight pairs one by one. */
  method CreateDaytripApiUrl(cfg: Config, origin: Geocode, destination: Geocode, date: string, passengersCount: Num,
                             includeStops: Option<string>, includeNonEnglishSpeaking: Option<string>)
    returns (r: Result<Url>)
    ensures r == DaytripApiUrl(cfg, origin, destination, date, passengersCount, includeStops, includeNonEnglishSpeaking)
  {
    if !Defined(cfg.daytripApiEndpoint) || !Defined(cfg.daytripApiKey) {
      return Failure(DaytripConfigMessage);
    }
    var params := new SearchParams();
    params.Append("originLongitude", origin.lng);
    params.Append("originLatitude", origin.lat);
    params.Append("destinationLongitude", destination.lng);
    params.Append("destinationLatitude", destination.lat);
    params.Append("departureTime", date);
    params.Append("passengersCount", passengersCount.ToString());
    params.Append("includeStops", FlagText(includeStops));
    params.Append("includeNonEnglishSpeaking", FlagText(includeNonEnglishSpeaking));
    assert params.pairs == BookingParams(origin, destination, date, passengersCount, includeStops, includeNonEnglishSpeaking);
    r := Success(Url(cfg.daytripApiEndpoint.value, params.pairs));
  }

  lemma BookingKeysDistinct()
    ensures forall i, j :: 0 <= i < j < |BookingKeys| ==> BookingKeys[i] != BookingKeys[j]
  {
  }

  /** The booking query has the fixed key order, and every key reads back the value placed at its position. */
  lemma BookingParamsOrder(origin: Geocode, destination: Geocode, date: string, passengersCount: Num,
                           includeStops: Option<string>, includeNonEnglishSpeaking: Option<string>)
    ensures var ps := BookingParams(origin, destination, date, passengersCount, includeStops, includeNonEnglishSpeaking);
      && Keys(ps) == BookingKeys
      && forall i :: 0 <= i < |ps| ==> Lookup(ps, BookingKeys[i]) == Some(ps[i].1)
  {
    var ps := BookingParams(origin, destination, date, passengersCount, includeStops, includeNonEnglishSpeaking);
    assert Keys(ps) == BookingKeys;
    BookingKeysDistinct();
    LookupDistinctKeys(ps, BookingKeys);
  }

  /**
   * What the booking service reads from the query: the geocodes' coordinates,
   * the date verbatim, the passenger count's text, and each flag as "true"
   * exactly when its incoming value was the string "true" and "false" otherwise.
   */
  lemma BookingParamsValues(origin: Geocode, destination: Geocode, date: string, passengersCount: Num,
                            includeStops: Option<string>, includeNonEnglishSpeaking: Option<string>)
    ensures var ps := BookingParams(origin, destination, date, passengersCount, includeStops, includeNonEnglishSpeaking);
      && Lookup(ps, "originLongitude") == Some(origin.lng)
      && Lookup(ps, "originLatitude") == Some(origin.lat)
      && Lookup(ps, "destinationLongitude") == Some(destination.lng)
      && Lookup(ps, "destinationLatitude") == Some(destination.lat)
      && Lookup(ps, "departureTime") == Some(date)
      && Lookup(ps, "passengersCount") == Some(passengersCount.ToString())
      && Lookup(ps, "includeStops") == Some(if includeStops == Some("true") then "true" else "false")
      && Lookup(ps, "includeNonEnglishSpeaking") == Some(if includeNonEnglishSpeaking == Some("true") then "true" else "false")
  {
    var ps := BookingParams(origin, destination, date, passengersCount, includeStops, includeNonEnglishSpeaking);
    BookingParamsOrder(origin, destination, date, passengersCount, includeStops, includeNonEnglishSpeaking);
    assert Lookup(ps, BookingKeys[0]) == Some(ps[0].1);
    assert Lookup(ps, BookingKeys[1]) == Some(ps[1].1);
    assert Lookup(ps, BookingKeys[2]) == Some(ps[2].1);
    assert Lookup(ps, BookingKeys[3]) == Some(ps[3].1);
    assert Lookup(ps, BookingKeys[4]) == Some(ps[4].1);
    assert Lookup(ps, BookingKeys[5]) == Some(ps[5].1);
    assert Lookup(ps, BookingKeys[6]) == Some(ps[6].1);
    assert Lookup(ps, BookingKeys[7]) == Some(ps[7].1);
  }

  // ---------------------------------------------------------------------------
  // fetchDaytripApi

  function BookingRequestFor(cfg: Config, url: Url): BookingRequest
    requires Defined(cfg.daytripApiKey)
  {
    BookingRequest(url, cfg.daytripApiKey.value)
  }

  /**
   * `fetchDaytripApi`: a missing key fails before any call; a rejected fetch
   * keeps its message; a non-ok reply fails with the body's `message` (an
   * Error built from an undefined message has the message ""); an ok reply's
   * body is returned unchanged.
   */
  function FetchDaytripApi<B>(env: Env<B>, url: Url): (s: Step<B>)
    ensures !Defined(env.config.daytripApiKey) ==> s == Step(Failure(DaytripKeyMessage), [])
    ensures Defined(env.config.daytripApiKey) ==>
              var reply := env.booking(BookingRequestFor(env.config, url));
              && s.calls == [BookingCall(BookingRequestFor(env.config, url))]
              && (s.result.Success? <==> reply.Success? && reply.value.ok)
              && (s.result.Success? ==> s.result.value == reply.value.body)
              && (reply.Success? && !reply.value.ok ==> s.result == Failure(reply.value.message.GetOr("")))
              && (reply.Failure? ==> s.result == Failure(reply.message))
  {
    var cfg := env.config;
    if !Defined(cfg.daytripApiKey) then Step(Failure(DaytripKeyMessage), [])
    else
      var request := BookingRequestFor(cfg, url);
      var outcome :=
        match env.booking(request)
        case Failure(m) => Failure(m)
        case Success(reply) => if !reply.ok then Failure(reply.message.GetOr("")) else Success(reply.body);
      Step(outcome, [BookingCall(request)])
  }

  // ---------------------------------------------------------------------------
  // GET

  /**
   * `Promise.all` over the two geocodes: it succeeds when both do; otherwise
   * it fails with the message of a failing one, the origin's when only it
   * fails or when it rejects first.
   */
  function BothGeocodes(origin: Result<Geocode>, destination: Result<Geocode>, originRejectsFirst: bool)
    : (r: Result<(Geocode, Geocode)>)
    ensures r.Success? <==> origin.Success? && destination.Success?
    ensures r.Success? ==> r.value == (origin.value, destination.value)
    ensures r.Failure? ==> (origin.Failure? && r.message == origin.message)
                           || (destination.Failure? && r.message == destination.message)
  {
    if origin.Success? && destination.Success? then Success((origin.value, destination.value))
    else if origin.Failure? && (destination.Success? || originRejectsFirst) then Failure(origin.message)
    else Failure(destination.message)
  }

  /** `searchParams.get("date") as string`, appended later: a missing date is the text "null". */
  function DateText(v: Option<string>): (s: string)
    ensures v.None? ==> s == "null"
    ensures v.Some? ==> s == v.value
  {
    match v
    case None => "null"
    case Some(s) => s
  }

  predicate RequiredPresent(query: Pairs) {
    Defined(Lookup(query, "origin")) && Defined(Lookup(query, "destination")) && Defined(Lookup(query, "passengersCount"))
  }

  /** The booking URL `GET` builds from two geocodes and the request. */
  function UrlFor(cfg: Config, query: Pairs, origin: Geocode, destination: Geocode): Result<Url>
    requires RequiredPresent(query)
  {
    DaytripApiUrl(cfg, origin, destination, DateText(Lookup(query, "date")),
                  ParseInt(Lookup(query, "passengersCount").value),
                  NonEmpty(Lookup(query, "includeStops")), NonEmpty(Lookup(query, "includeNonEnglishSpeaking")))
  }

  /**
   * The booking query forwards the request's `date` as `departureTime`
   * verbatim, and the text "null" when the request has no `date`.
   */
  lemma DepartureTimeForwarded(cfg: Config, query: Pairs, origin: Geocode, destination: Geocode)
    requires RequiredPresent(query)
    ensures UrlFor(cfg, query, origin, destination).Success? ==>
              var ps := UrlFor(cfg, query, origin, destination).value.params;
              && (Lookup(query, "date").None? ==> Lookup(ps, "departureTime") == Some("null"))
              && (Lookup(query, "date").Some? ==> Lookup(ps, "departureTime") == Lookup(query, "date"))
  {
    var date := DateText(Lookup(query, "date"));
    var count := ParseInt(Lookup(query, "passengersCount").value);
    var stops := NonEmpty(Lookup(query, "includeStops"));
    var nonEnglish := NonEmpty(Lookup(query, "includeNonEnglishSpeaking"));
    BookingParamsValues(origin, destination, date, count, stops, nonEnglish);
  }

  function ErrorResponse<B>(status: nat, message: string): Response<B> {
    Response(status, ErrorBody(message))
  }

  /**
   * The part of `GET`'s try block after `Promise.all`: build the booking
   * URL, fetch it and shape the response; any throw becomes a 500.
   */
  function AfterGeocodes<B>(query: Pairs, env: Env<B>, geocodes: Result<(Geocode, Geocode)>): (h: Handled<B>)
    requires RequiredPresent(query)
    ensures h.response.status == 200 <==> h.response.body.RouteBody?
    ensures h.response.status == 200 || h.response.status == 500
  {
    match geocodes
    case Failure(m) => Handled(ErrorResponse(500, m), [])
    case Success(g) =>
      match UrlFor(env.config, query, g.0, g.1)
      case Failure(m) => Handled(ErrorResponse(500, m), [])
      case Success(url) =>
        var fetched := FetchDaytripApi(env, url);
        match fetched.result
        case Failure(m) => Handled(ErrorResponse(500, m), fetched.calls)
        case Success(payload) => Handled(Response(200, RouteBody(g.0.address, g.1.address, payload)), fetched.calls)
  }

  /** The `GET` handler of the route. */
  function GET<B>(query: Pairs, env: Env<B>): (h: Handled<B>)
    ensures h.response.status == 200 || h.response.status == 400 || h.response.status == 500
    ensures h.response.status == 200 <==> h.response.body.RouteBody?
  {
    if !RequiredPresent(query) then
      Handled(ErrorResponse(400, RequiredParamsMessage), [])
    else
      var originStep := GetAddressGeoCode(env, Lookup(query, "origin").value);
      var destinationStep := GetAddressGeoCode(env, Lookup(query, "destination").value);
      var rest := AfterGeocodes(query, env, BothGeocodes(originStep.result, destinationStep.result, env.originRejectsFirst));
      Handled(rest.response, originStep.calls + destinationStep.calls + rest.calls)
  }

  // ---------------------------------------------------------------------------
  // Properties of the handler

  /**
   * 400 exactly when origin, destination or passengersCount is absent or
   * empty; the body is the fixed message and no upstream call is made.
   */
  lemma BadRequestExactly<B>(query: Pairs, env: Env<B>)
    ensures GET(query, env).response.status == 400 <==> !RequiredPresent(query)
    ensures !RequiredPresent(query) ==> GET(query, env) == Handled(ErrorResponse(400, RequiredParamsMessage), [])
  {
  }

  /**
   * Once the required parameters are present and the geocoder is configured,
   * both geocodes are requested, origin first, whatever becomes of either.
   */
  lemma GeocodesBothRequested<B>(query: Pairs, env: Env<B>)
    requires RequiredPresent(query)
    requires Defined(env.config.rapidApiKey) && Defined(env.config.rapidApiEndpoint)
    ensures |GET(query, env).calls| >= 2
    ensures GET(query, env).calls[..2] ==
              [GeocodeCall(GeocodeRequestFor(env.config, Lookup(query, "origin").value)),
               GeocodeCall(GeocodeRequestFor(env.config, Lookup(query, "destination").value))]
  {
  }

  /**
   * No booking call unless both geocodes succeeded and the booking URL could
   * be built; the booking call is then the only one after the two geocode
   * calls, it carries that URL, and the key `fetchDaytripApi` checks is
   * always set by then.
   */
  lemma BookingOnlyAfterGeocodes<B>(query: Pairs, env: Env<B>)
    ensures var h := GET(query, env);
      (exists i :: 0 <= i < |h.calls| && h.calls[i].BookingCall?) ==>
        && RequiredPresent(query)
        && var originStep := GetAddressGeoCode(env, Lookup(query, "origin").value);
           var destinationStep := GetAddressGeoCode(env, Lookup(query, "destination").value);
           && originStep.result.Success?
           && destinationStep.result.Success?
           && var url := UrlFor(env.config, query, originStep.result.value, destinationStep.result.value);
              && url.Success?
              && Defined(env.config.daytripApiKey)
              && h.calls == originStep.calls + destinationStep.calls
                            + [BookingCall(BookingRequestFor(env.config, url.value))]
  {
    var h := GET(query, env);
    if i :| 0 <= i < |h.calls| && h.calls[i].BookingCall? {
      var originStep := GetAddressGeoCode(env, Lookup(query, "origin").value);
      var destinationStep := GetAddressGeoCode(env, Lookup(query, "destination").value);
      var both := BothGeocodes(originStep.result, destinationStep.result, env.originRejectsFirst);
      GetShape(query, env);
      AfterGeocodesCalls(query, env, both);
    }
  }

  /** Past validation, the handler's calls are the two geocode calls followed by those of the steps after them. */
  lemma GetShape<B>(query: Pairs, env: Env<B>)
    requires RequiredPresent(query)
    ensures var originStep := GetAddressGeoCode(env, Lookup(query, "origin").value);
      var destinationStep := GetAddressGeoCode(env, Lookup(query, "destination").value);
      var rest := AfterGeocodes(query, env, BothGeocodes(originStep.result, destinationStep.result, env.originRejectsFirst));
      GET(query, env) == Handled(rest.response, originStep.calls + destinationStep.calls + rest.calls)
  {
  }

  /** The only call after the geocodes is the booking call, made once both geocodes and the URL succeeded. */
  lemma AfterGeocodesCalls<B>(query: Pairs, env: Env<B>, geocodes: Result<(Geocode, Geocode)>)
    requires RequiredPresent(query)
    ensures var rest := AfterGeocodes(query, env, geocodes);
      rest.calls == [] ||
        (&& geocodes.Success?
         && var url := UrlFor(env.config, query, geocodes.value.0, geocodes.value.1);
            && url.Success?
            && Defined(env.config.daytripApiKey)
            && rest.calls == [BookingCall(BookingRequestFor(env.config, url.value))])
  {
  }

  /**
   * A 200 response returns the addresses the geocoder normalised (not the
   * request's strings) and the booking body unchanged; and every request
   * whose steps all succeed gets a 200.
   */
  lemma SuccessReturnsUpstreamValues<B>(query: Pairs, env: Env<B>)
    ensures var h := GET(query, env);
      h.response.status == 200 <==>
        && RequiredPresent(query)
        && var originStep := GetAddressGeoCode(env, Lookup(query, "origin").value);
           var destinationStep := GetAddressGeoCode(env, Lookup(query, "destination").value);
           && originStep.result.Success?
           && destinationStep.result.Success?
           && var url := UrlFor(env.config, query, originStep.result.value, destinationStep.result.value);
              && url.Success?
              && var reply := env.booking(BookingRequestFor(env.config, url.value));
                 && reply.Success? && reply.value.ok
                 && h.response.body == RouteBody(
                      env.geocoder(GeocodeRequestFor(env.config, Lookup(query, "origin").value)).value.address,
                      env.geocoder(GeocodeRequestFor(env.config, Lookup(query, "destination").value)).value.address,
                      reply.value.body)
  {
  }

  /**
   * Every failure after validation is a 500 whose error is the message of the
   * step that threw: a geocode's, the booking configuration's, or the
   * booking fetch's.
   */
  lemma FailuresAre500<B>(query: Pairs, env: Env<B>)
    requires RequiredPresent(query)
    ensures var h := GET(query, env);
      var originStep := GetAddressGeoCode(env, Lookup(query, "origin").value);
      var destinationStep := GetAddressGeoCode(env, Lookup(query, "destination").value);
      && (originStep.result.Failure? && destinationStep.result.Success? ==>
            h == Handled(ErrorResponse(500, originStep.result.message), originStep.calls + destinationStep.calls))
      && (originStep.result.Success? && destinationStep.result.Failure? ==>
            h == Handled(ErrorResponse(500, destinationStep.result.message), originStep.calls + destinationStep.calls))
      && (originStep.result.Failure? && destinationStep.result.Failure? ==>
            h.response.status == 500 && h.calls == originStep.calls + destinationStep.calls &&
            (h.response.body.error == originStep.result.message || h.response.body.error == destinationStep.result.message))
      && (originStep.result.Success? && destinationStep.result.Success? &&
          UrlFor(env.config, query, originStep.result.value, destinationStep.result.value).Failure? ==>
            h == Handled(ErrorResponse(500, DaytripConfigMessage), originStep.calls + destinationStep.calls))
      && (originStep.result.Success? && destinationStep.result.Success? ==>
          var url := UrlFor(env.config, query, originStep.result.value, destinationStep.result.value);
          url.Success? && FetchDaytripApi(env, url.value).result.Failure? ==>
            h.response == ErrorResponse(500, FetchDaytripApi(env, url.value).result.message))
  {
    var originStep := GetAddressGeoCode(env, Lookup(query, "origin").value);
    var destinationStep := GetAddressGeoCode(env, Lookup(query, "destination").value);
    var both := BothGeocodes(originStep.result, destinationStep.result, env.originRejectsFirst);
    assert GET(query, env).response == AfterGeocodes(query, env, both).response;
    if both.Success? {
      var url := UrlFor(env.config, query, both.value.0, both.value.1);
      if url.Success? {
        var fetched := FetchDaytripApi(env, url.value);
        if fetched.result.Failure? {
          assert AfterGeocodes(query, env, both).response == ErrorResponse(500, fetched.result.message);
        }
      }
    }
  }

  /** Without a geocoder key, every valid request fails with the key message before any upstream call. */
  lemma MissingGeocoderKey<B>(query: Pairs, env: Env<B>)
    requires RequiredPresent(query) && !Defined(env.config.rapidApiKey)
    ensures GET(query, env) == Handled(ErrorResponse(500, RapidApiKeyMessage), [])
  {
  }

  /** Which geocode rejects first only matters when both fail. */
  lemma BothGeocodesOrder(origin: Result<Geocode>, destination: Result<Geocode>)
    requires origin.Success? || destination.Success?
    ensures BothGeocodes(origin, destination, true) == BothGeocodes(origin, destination, false)
  {
  }

  /** The steps after the geocodes do not look at which geocode rejects first. */
  lemma AfterGeocodesIgnoresOrder<B>(query: Pairs, env: Env<B>, geocodes: Result<(Geocode, Geocode)>, flag: bool)
    requires RequiredPresent(query)
    ensures AfterGeocodes(query, env, geocodes) == AfterGeocodes(query, env.(originRejectsFirst := flag), geocodes)
  {
    var other := env.(originRejectsFirst := flag);
    if geocodes.Success? {
      var url := UrlFor(env.config, query, geocodes.value.0, geocodes.value.1);
      if url.Success? {
        assert FetchDaytripApi(env, url.value) == FetchDaytripApi(other, url.value);
      }
    }
  }

  /**
   * Which geocode rejects first matters only when both fail: otherwise the
   * handler's response and calls do not depend on it.
   */
  lemma RejectionOrderIrrelevant<B>(query: Pairs, env: Env<B>)
    requires RequiredPresent(query)
    requires GetAddressGeoCode(env, Lookup(query, "origin").value).result.Success?
             || GetAddressGeoCode(env, Lookup(query, "destination").value).result.Success?
    ensures GET(query, env) == GET(query, env.(originRejectsFirst := !env.originRejectsFirst))
  {
    var other := env.(originRejectsFirst := !env.originRejectsFirst);
    var originStep := GetAddressGeoCode(env, Lookup(query, "origin").value);
    var destinationStep := GetAddressGeoCode(env, Lookup(query, "destination").value);
    assert originStep == GetAddressGeoCode(other, Lookup(query, "origin").value);
    assert destinationStep == GetAddressGeoCode(other, Lookup(query, "destination").value);
    BothGeocodesOrder(originStep.result, destinationStep.result);
    var both := BothGeocodes(originStep.result, destinationStep.result, env.originRejectsFirst);
    assert both == BothGeocodes(originStep.result, destinationStep.result, other.originRejectsFirst);
    AfterGeocodesIgnoresOrder(query, env, both, other.originRejectsFirst);
  }
}
