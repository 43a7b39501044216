/**
 * The search page of src/app/page.tsx: the form's default values, and
 * `fetchRouteData`, which turns the form values into the `/api` query and a
 * failed reply into an error message.
 */
module Page {
  import opened Wrappers
  import opened Decimal
  import opened Query

  /** The form values. The date is in milliseconds since the epoch, as `getTime()` gives it. */
  datatype TripSearchParams = TripSearchParams(
    origin: string,
    destination: string,
    passengersCount: Num,
    includeStops: bool,
    includeNonEnglishSpeaking: bool,
    dateMillis: int)

  /**
   * `defaultValues` of `useForm`: empty origin and destination, two
   * passengers, both flags on, and tomorrow's date (`tomorrowMillis`, the
   * local "now plus one day", is an input of the model).
   */
  function DefaultValues(tomorrowMillis: int): (v: TripSearchParams)
    ensures v.origin == "" && v.destination == ""
    ensures v.passengersCount == Int(2)
    ensures v.includeStops && v.includeNonEnglishSpeaking
    ensures v.dateMillis == tomorrowMillis
  {
    TripSearchParams("", "", Int(2), true, true, tomorrowMillis)
  }

  /** `b.toString()` for a boolean. */
  function BoolText(b: bool): (t: string)
    ensures t == "true" || t == "false"
    ensures t == "true" <==> b
  {
    if b then "true" else "false"
  }

  /** `Math.floor(millis / 1000)`: the whole seconds at or before the instant. */
  function EpochSeconds(millis: int): (secs: int)
    ensures secs * 1000 <= millis < secs * 1000 + 1000
  {
    millis / 1000
  }

  const RouteQueryKeys := ["origin", "destination", "passengersCount", "includeStops", "includeNonEnglishSpeaking", "date"]

  /** The query pairs `fetchRouteData` appends, in order. */
  function RouteQuery(v: TripSearchParams): Pairs {
    [("origin", v.origin), ("destination", v.destination),
     ("passengersCount", v.passengersCount.ToString()),
     ("includeStops", BoolText(v.includeStops)),
     ("includeNonEnglishSpeaking", BoolText(v.includeNonEnglishSpeaking)),
     ("date", IntToString(EpochSeconds(v.dateMillis)))]
  }

  /** The `URLSearchParams` of `fetchRouteData`, filled by successive `append` calls. */
  method BuildRouteQuery(v: TripSearchParams) returns (pairs: Pairs)
    ensures pairs == RouteQuery(v)
  {
    var params := new SearchParams();
    params.Append("origin", v.origin);
    params.Append("destination", v.destination);
    params.Append("passengersCount", v.passengersCount.ToString());
    params.Append("includeStops", BoolText(v.includeStops));
    params.Append("includeNonEnglishSpeaking", BoolText(v.includeNonEnglishSpeaking));
    var timestamp := EpochSeconds(v.dateMillis);
    params.Append("date", IntToString(timestamp));
    pairs := params.pairs;
  }

  lemma RouteQueryKeysDistinct()
    ensures forall i, j :: 0 <= i < j < |RouteQueryKeys| ==> RouteQueryKeys[i] != RouteQueryKeys[j]
  {
  }

  /** The query has the fixed key order, and every key reads back the value placed at its position. */
  lemma RouteQueryOrder(v: TripSearchParams)
    ensures Keys(RouteQuery(v)) == RouteQueryKeys
    ensures forall i :: 0 <= i < |RouteQuery(v)| ==> Lookup(RouteQuery(v), RouteQueryKeys[i]) == Some(RouteQuery(v)[i].1)
  {
    var ps := RouteQuery(v);
    assert Keys(ps) == RouteQueryKeys;
    RouteQueryKeysDistinct();
    LookupDistinctKeys(ps, RouteQueryKeys);
  }

  /**
   * The server reads back each value as appended: the strings verbatim, the
   * flags as "true" or "false", the date as epoch seconds.
   */
  lemma RouteQueryReadsBack(v: TripSearchParams)
    ensures Lookup(RouteQuery(v), "origin") == Some(v.origin)
    ensures Lookup(RouteQuery(v), "destination") == Some(v.destination)
    ensures Lookup(RouteQuery(v), "passengersCount") == Some(v.passengersCount.ToString())
    ensures Lookup(RouteQuery(v), "includeStops") == Some(BoolText(v.includeStops))
    ensures Lookup(RouteQuery(v), "includeNonEnglishSpeaking") == Some(BoolText(v.includeNonEnglishSpeaking))
    ensures Lookup(RouteQuery(v), "date") == Some(IntToString(EpochSeconds(v.dateMillis)))
  {
    var ps := RouteQuery(v);
    RouteQueryOrder(v);
    assert Lookup(ps, RouteQueryKeys[0]) == Some(ps[0].1);
    assert Lookup(ps, RouteQueryKeys[1]) == Some(ps[1].1);
    assert Lookup(ps, RouteQueryKeys[2]) == Some(ps[2].1);
    assert Lookup(ps, RouteQueryKeys[3]) == Some(ps[3].1);
    assert Lookup(ps, RouteQueryKeys[4]) == Some(ps[4].1);
    assert Lookup(ps, RouteQueryKeys[5]) == Some(ps[5].1);
  }

  const FetchFailedMessage := "Failed to fetch route data"

  /** `errorResponse.error || "Failed to fetch route data"`: an absent or empty error falls back. */
  function ErrorMessage(error: Option<string>): (m: string)
    ensures error.Some? && error.value != "" ==> m == error.value
    ensures error.None? || error == Some("") ==> m == FetchFailedMessage
    ensures m != ""
  {
    if error.Some? && error.value != "" then error.value else FetchFailedMessage
  }

  /** What `/api` answers: `response.ok`, the body's `error` field, and the whole body. */
  datatype ApiReply<R> = ApiReply(ok: bool, error: Option<string>, data: R)

  /**
   * `fetchRouteData`: the query for the values is sent; a rejected `fetch`
   * or a body `response.json()` cannot parse (the api's Failure) throws its
   * own message; an ok reply's body is the data, any other reply throws with
   * its error message or the fallback.
   */
  function FetchRouteData<R>(v: TripSearchParams, api: Pairs -> Result<ApiReply<R>>): (r: Result<R>)
    ensures api(RouteQuery(v)).Failure? ==> r == Failure(api(RouteQuery(v)).message)
    ensures r.Success? <==> api(RouteQuery(v)).Success? && api(RouteQuery(v)).value.ok
    ensures r.Success? ==> r.value == api(RouteQuery(v)).value.data
    ensures api(RouteQuery(v)).Success? && r.Failure? ==>
              r.message == ErrorMessage(api(RouteQuery(v)).value.error) && r.message != ""
  {
    match api(RouteQuery(v))
    case Failure(m) => Failure(m)
    case Success(reply) =>
      if !reply.ok then Failure(ErrorMessage(reply.error)) else Success(reply.data)
  }
}
