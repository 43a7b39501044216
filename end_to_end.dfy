/**
 * The page and the route together: the query `fetchRouteData` builds
 * (src/app/page.tsx) read by the `GET` handler (src/app/api/route.ts), and
 * the handler's response read back by `fetchRouteData`.
 */
module EndToEnd {
  import opened Wrappers
  import opened Decimal
  import opened Query
  import opened Route
  import opened Page

  /** What the page sees of a handled request: `response.ok`, the `error` field, and the body. */
  function Served<B>(env: Env<B>, query: Pairs): (reply: ApiReply<Body<B>>)
    ensures reply.ok <==> GET(query, env).response.status == 200
    ensures reply.data == GET(query, env).response.body
    ensures reply.error.Some? <==> !reply.ok
  {
    var response := GET(query, env).response;
    ApiReply(response.status == 200,
             if response.body.ErrorBody? then Some(response.body.error) else None,
             response.body)
  }

  /** The `toString` of a form's passenger count is never empty, NaN included. */
  lemma PassengersTextNonEmpty(n: Num)
    ensures n.ToString() != ""
  {
  }

  /**
   * A query from the page is rejected with 400 exactly when the origin or
   * the destination is empty: the passenger count always arrives as a
   * non-empty text, even when it is NaN or 0.
   */
  lemma PageQueryBadRequest<B>(v: TripSearchParams, env: Env<B>)
    ensures GET(RouteQuery(v), env).response.status == 400 <==> v.origin == "" || v.destination == ""
    ensures RequiredPresent(RouteQuery(v)) <==> v.origin != "" && v.destination != ""
  {
    RouteQueryReadsBack(v);
    PassengersTextNonEmpty(v.passengersCount);
    BadRequestExactly(RouteQuery(v), env);
  }

  /**
   * The booking URL built for a page query carries the form's values: the
   * date as epoch seconds, the passenger count as the form held it (NaN
   * included), and each flag as the checkbox's state.
   */
  lemma PageValuesReachBooking<B>(v: TripSearchParams, env: Env<B>, origin: Geocode, destination: Geocode)
    requires v.origin != "" && v.destination != ""
    ensures RequiredPresent(RouteQuery(v))
    ensures UrlFor(env.config, RouteQuery(v), origin, destination) ==
              DaytripApiUrl(env.config, origin, destination, IntToString(EpochSeconds(v.dateMillis)), v.passengersCount,
                            Some(BoolText(v.includeStops)), Some(BoolText(v.includeNonEnglishSpeaking)))
    ensures UrlFor(env.config, RouteQuery(v), origin, destination).Success? ==>
              var ps := UrlFor(env.config, RouteQuery(v), origin, destination).value.params;
              && Lookup(ps, "departureTime") == Some(IntToString(EpochSeconds(v.dateMillis)))
              && Lookup(ps, "passengersCount") == Some(v.passengersCount.ToString())
              && Lookup(ps, "includeStops") == Some(BoolText(v.includeStops))
              && Lookup(ps, "includeNonEnglishSpeaking") == Some(BoolText(v.includeNonEnglishSpeaking))
  {
    PageQueryBadRequest(v, env);
    RouteQueryReadsBack(v);
    ParseIntToString(v.passengersCount);
    var date := IntToString(EpochSeconds(v.dateMillis));
    var stops := Some(BoolText(v.includeStops));
    var nonEnglish := Some(BoolText(v.includeNonEnglishSpeaking));
    BookingParamsValues(origin, destination, date, v.passengersCount, stops, nonEnglish);
  }

  /**
   * The page's outcome follows the handler's status: a 200 body is the data;
   * a 400 shows the required-parameters message; any other failure shows the
   * handler's error, or the fallback when that error is empty (as when the
   * booking service answers non-ok without a message).
   */
  lemma PageSeesHandlerOutcome<B>(v: TripSearchParams, env: Env<B>)
    ensures var h := GET(RouteQuery(v), env);
      var r := FetchRouteData(v, q => Success(Served(env, q)));
      && (r.Success? <==> h.response.status == 200)
      && (r.Success? ==> r.value == h.response.body)
      && (h.response.status == 400 ==> r == Failure(RequiredParamsMessage))
      && (r.Failure? ==> r.message == (if h.response.body.error == "" then FetchFailedMessage else h.response.body.error))
  {
    var h := GET(RouteQuery(v), env);
    if h.response.status == 400 {
      PageQueryBadRequest(v, env);
      BadRequestExactly(RouteQuery(v), env);
    }
  }
}
