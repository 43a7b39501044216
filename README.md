# Daytrip route search, modelled in Dafny

This project models the logic of a small Next.js app that searches for
private day-trip rides between two addresses. The app has a client side and a
server side.

- **Client (search page).** Holds a form: origin, destination, passenger
  count, two flags and a date. Submitting the form builds a query string and
  sends it to the app's own `/api` route.
- **Server (`GET` route).**
  - Checks that the required parameters are present.
  - Geocodes both addresses.
  - Builds the booking-service URL and fetches it.
  - Answers 200 with the normalised addresses and the booking payload, 400
    when a parameter is missing, and 500 when any step throws.
- **Client (results).**
  - Shows the cheapest price ("from"), a "stops available" badge, and the
    options sorted by price.
  - Lets the user select one option.
  - Lists the selected option's stops. Each stop has a "Read more" trigger and
    its duration formatted by `convertMinutes`.

Modules:

- `Wrappers`: the `Option` and `Result` datatypes.
- `Decimal`: decimal text of integers as JavaScript prints it, the prefix
  parsing of `parseInt`, and the number-or-NaN values (`Num`) that the form
  and `parseInt` produce.
- `Query`: `URLSearchParams` as an ordered list of pairs. `get` is the first
  match. A class models the object that `append` fills in place.
- `TimeUtils`: `convertMinutes`, with a reader for its output that proves the
  text loses nothing.
- `Route`: the server route.
  - `GET` is a function of the query and an environment: the configuration,
    one oracle per upstream service, and which geocode rejects first.
  - It returns the response and the list of upstream calls it made.
- `RouteOptions`: `priceFrom`, `stopsAvailable`, the in-place sort by total
  price, the header, the cards, and the selection state cell.
- `AvailableStops`: the `open` state cell and the Read-more rule.
- `Page`: the form defaults, the query `fetchRouteData` builds, and its error
  fallback.
- `SearchForm`: the validators, the input handlers, `FieldInfo`, and a form
  session as a sequence of events.
- `EndToEnd`: the page's query passed through the server's `GET`, and the
  server's answer read back by the page.

Environment variables become fields of `Route.Config`. The two HTTP services
become the function-valued fields `geocoder` and `booking` of `Route.Env`. The
booking payload is the type parameter `B`. The date of "tomorrow" is a
parameter of `Page.DefaultValues`.

## Model

| member | source | states |
|---|---|---|
| Decimal.NatToString | src/utils/time.utils.ts:7-9 | the rendering of a count is a non-empty digit string with no leading zero, one digit exactly below ten |
| Decimal.ParseNatToString | src/app/page.tsx:123-124 | reading a rendered natural number back gives the number |
| Decimal.NatToStringInjective | src/utils/time.utils.ts:7-9 | distinct counts render as distinct texts |
| Decimal.DigitPrefix | src/app/api/route.ts:35 | the digits parseInt reads are the longest digit prefix: all digits, a prefix, and followed by a non-digit or nothing |
| Decimal.ParseInt | src/app/api/route.ts:35 | parseInt yields NaN exactly when no digit follows the optional sign |
| Decimal.ParseIntToString | src/app/api/route.ts:35 | parseInt reads back every value toString wrote, NaN included, so the passenger count survives the trip through the query |
| Decimal.ParseIntOfDigits | src/app/api/route.ts:35 | a plain digit string parses to its value, leading zeros dropped |
| Query.Lookup | src/app/api/route.ts:11-16 | a value get returns was appended with that key |
| Query.LookupFirstMatch | src/app/api/route.ts:11-16 | get returns null exactly when no pair has the key, otherwise the value of the first pair with that key |
| Query.LookupDistinct | src/app/api/route.ts:11-16 | when no earlier pair repeats a key, get returns the value appended with it |
| Query.LookupDistinctKeys | src/app/api/route.ts:11-16 | in a query whose keys are pairwise distinct, every key reads back the value appended with it |
| Query.SearchParams.Append | src/app/page.tsx:114-124 | append adds one pair at the end and keeps every earlier pair |
| TimeUtils.Decompose | src/utils/time.utils.ts:2-5 | days, hours and minutes add back up to the input, with hours below 24 and minutes below 60 |
| TimeUtils.DecomposeTotal | src/utils/time.utils.ts:2-5 | that split is unique: any in-range split is the split of its own total |
| TimeUtils.Join | src/utils/time.utils.ts:16 | the joined text is empty exactly when there are no parts or one empty part |
| TimeUtils.ConvertMinutes | src/utils/time.utils.ts:1-17 | the imperative formatter returns the duration text of its argument: non-zero units only, in the order days, hours, minutes, joined with ", " |
| TimeUtils.NonZeroUnits | src/utils/time.utils.ts:12-14 | a unit appears among the shown parts exactly when its count is non-zero, and there are at most three |
| TimeUtils.SplitJoin | src/utils/time.utils.ts:16 | splitting the joined parts at ", " gives the parts back |
| TimeUtils.ParsePhraseOfPhrase | src/utils/time.utils.ts:7-9 | each "count noun" phrase reads back as its count and unit, singular or plural |
| TimeUtils.PartsPlain | src/utils/time.utils.ts:7-14 | no shown part is empty or contains a comma, so the ", " separator is unambiguous |
| TimeUtils.DurationRoundTrip | src/utils/time.utils.ts:1-17 | reading the text back yields exactly the non-zero units, in order, each with its count |
| TimeUtils.DurationTextRecoversMinutes | src/utils/time.utils.ts:1-17 | the units read back add up to the input minutes |
| TimeUtils.SumNonZeroUnits | src/utils/time.utils.ts:2-14 | the shown units, counted in minutes, add up to the duration |
| TimeUtils.DurationTextInjective | src/utils/time.utils.ts:1-17 | distinct minute counts never render the same text |
| TimeUtils.DurationTextEmpty | src/utils/time.utils.ts:11-16 | the text is empty exactly for zero minutes |
| TimeUtils.PhraseSingular | src/utils/time.utils.ts:7-9 | a unit is worded in the singular exactly when its count is one |
| TimeUtils.WorkedExamples | src/utils/time.utils.ts:1-17 | 1500 minutes is "1 day, 1 hour", 61 is "1 hour, 1 minute", 0 is the empty text |
| Route.NonEmpty | src/app/api/route.ts:14-15 | an absent or empty flag parameter becomes undefined; any other value is kept |
| Route.GetAddressGeoCode | src/app/api/route.ts:54-81 | the key is checked before the endpoint; the geocoder is called exactly when both are set; success exactly when the reply's status is "success", with address, latitude and longitude mapped to the geocode; a rejected call keeps its own message, and any other status fails with "Failed to fetch geocode" |
| Route.FlagText | src/app/api/route.ts:111-112 | a flag is forwarded as "true" exactly when it arrived as the string "true", otherwise "false" |
| Route.CreateDaytripApiUrl | src/app/api/route.ts:83-115 | fails with the configuration message when the endpoint or the key is unset, otherwise appends the eight booking pairs in order |
| Route.BookingParamsOrder | src/app/api/route.ts:98-112 | the booking query has the fixed key order, and every key reads back the value placed with it |
| Route.BookingParamsValues | src/app/api/route.ts:99-112 | the booking query carries longitude and latitude of both geocodes, the date verbatim, the passenger count's text and the two normalised flags |
| Route.FetchDaytripApi | src/app/api/route.ts:117-140 | a missing key fails before any call; otherwise exactly one booking call; success exactly on an ok reply, whose body is returned unchanged; a non-ok reply fails with its message or ""; a rejected fetch keeps its message |
| Route.DateText | src/app/api/route.ts:16 | a request without `date` yields the text "null"; a present date is kept verbatim |
| Route.DepartureTimeForwarded | src/app/api/route.ts:109 | the booking query's `departureTime` is the request's `date` verbatim, or "null" when the request has none |
| Route.BothGeocodes | src/app/api/route.ts:26-29 | Promise.all succeeds exactly when both geocodes do; otherwise it fails with the message of a failing one |
| Route.AfterGeocodes | src/app/api/route.ts:31-51 | after the geocodes every outcome is either 200 with a route body or 500 with an error body |
| Route.GET | src/app/api/route.ts:9-52 | the status is 200, 400 or 500, and it is 200 exactly when the body is a route body |
| Route.BadRequestExactly | src/app/api/route.ts:18-23 | 400 exactly when origin, destination or passengersCount is absent or empty, with the fixed message and no upstream call |
| Route.GeocodesBothRequested | src/app/api/route.ts:26-29 | with valid parameters and a configured geocoder, both addresses are geocoded, origin first, whatever the outcome |
| Route.AfterGeocodesCalls | src/app/api/route.ts:31-39 | after the geocodes, the only possible call is one booking call, made when both geocodes and the URL succeeded and the key is set |
| Route.BookingOnlyAfterGeocodes | src/app/api/route.ts:26-39 | a booking call happens only after both geocodes succeeded and the URL was built; it is then the one call after the two geocode calls and carries that URL |
| Route.SuccessReturnsUpstreamValues | src/app/api/route.ts:39-48 | 200 exactly when every step succeeds, and the body holds the geocoder's normalised addresses and the booking body unchanged |
| Route.FailuresAre500 | src/app/api/route.ts:49-51 | every failure after validation is a 500 whose error is the message of the step that threw |
| Route.MissingGeocoderKey | src/app/api/route.ts:55-58 | without a geocoder key, a valid request fails with the key message before any upstream call |
| Route.BothGeocodesOrder | src/app/api/route.ts:26-29 | when at least one geocode succeeds, the outcome does not depend on which one rejects first |
| Route.AfterGeocodesIgnoresOrder | src/app/api/route.ts:31-51 | the steps after Promise.all do not depend on which geocode rejects first |
| Route.RejectionOrderIrrelevant | src/app/api/route.ts:26-29 | which geocode rejects first changes nothing unless both fail |
| AvailableStops.StopDescriptions.constructor | src/components/AvailableStops.tsx:18 | no stop starts open |
| AvailableStops.StopDescriptions.OnOpenChange | src/components/AvailableStops.tsx:56-58 | the id is appended whatever state is requested, so the stop is open afterwards, open stops stay open and no other stop changes |
| AvailableStops.StopViews | src/components/AvailableStops.tsx:22-82 | one view per stop, in order; expanded exactly when its id is open, "Read more" exactly when it is not; the duration is the stop's formatted minutes |
| AvailableStops.OpeningChangesOnlyThatStop | src/components/AvailableStops.tsx:56-70 | opening a stop expands it and hides its trigger, and leaves every other stop's view unchanged |
| RouteOptions.ReduceMin | src/components/RouteOptions.tsx:35-37 | the reduce yields a price no greater than any and equal to one of them |
| RouteOptions.PriceFrom | src/components/RouteOptions.tsx:35-37 | the "from" price is the least total price among the options, and some option has it |
| RouteOptions.StopsAvailable | src/components/RouteOptions.tsx:39-41 | find returns an option exactly when one has stops, and then the first such option |
| RouteOptions.ShowStopsBadge | src/components/RouteOptions.tsx:82-87 | the badge shows exactly when stops are requested and some option has stops |
| RouteOptions.InsertPermutes | src/components/RouteOptions.tsx:43-45 | inserting an option adds exactly that option |
| RouteOptions.InsertSorted | src/components/RouteOptions.tsx:43-45 | inserting into an ascending list keeps it ascending |
| RouteOptions.InsertWithPrice | src/components/RouteOptions.tsx:43-45 | an inserted option goes after the options of its own price, whose order is kept |
| RouteOptions.SortByPriceOrdered | src/components/RouteOptions.tsx:43-45 | the sorted options are ascending by total price |
| RouteOptions.SortByPricePermutes | src/components/RouteOptions.tsx:43-45 | the sorted options are a permutation of the input |
| RouteOptions.SortByPriceStable | src/components/RouteOptions.tsx:43-45 | the sort is stable: options of one price keep their input order |
| RouteOptions.SortByPriceFacts | src/components/RouteOptions.tsx:43-45 | the sorted options are ascending by total price, a permutation of the input, and keep equal prices in input order |
| RouteOptions.SortByPriceSorted | src/components/RouteOptions.tsx:43-45 | options already in ascending order are left as they are |
| RouteOptions.CheapestFirst | src/components/RouteOptions.tsx:35-45 | after the sort the first option's price is the "from" price |
| RouteOptions.SameMembersSamePrice | src/components/RouteOptions.tsx:35-37 | lists with the same members have the same "from" price |
| RouteOptions.SameMembersSameBadge | src/components/RouteOptions.tsx:39-41 | lists with the same members show the same stops badge |
| RouteOptions.RerenderAfterSort | src/components/RouteOptions.tsx:35-45 | after the in-place sort, a later render computes the same "from" price and the same badge |
| RouteOptions.InsertAt | src/components/RouteOptions.tsx:43-45 | one insertion step puts the next option into the sorted prefix and leaves the rest of the array alone |
| RouteOptions.SortOptions | src/components/RouteOptions.tsx:43-45 | the in-place sort leaves the array holding the stable ascending order of its old contents |
| RouteOptions.RenderHeader | src/components/RouteOptions.tsx:35-94 | "from" price and badge come from the options as received; the array is then sorted, and distance and travel time are read from its first option, which has the "from" price |
| RouteOptions.Toggle | src/components/RouteOptions.tsx:187-191 | a click yields nothing or that option, and flips whether that option is selected |
| RouteOptions.ToggleTwice | src/components/RouteOptions.tsx:187-191 | two clicks on the same button lead back to no selection, or to that option if it was selected |
| RouteOptions.SelectReplaces | src/components/RouteOptions.tsx:104-191 | clicking another option selects it and deselects the previous one |
| RouteOptions.AtMostOneSelected | src/components/RouteOptions.tsx:104 | with distinct ids, at most one card counts as selected |
| RouteOptions.Card | src/components/RouteOptions.tsx:104-193 | a card is selected exactly when its id matches, dimmed exactly when another is selected, and says "Clear selection" or "Select" accordingly |
| RouteOptions.Selection.constructor | src/components/RouteOptions.tsx:33 | nothing is selected at first |
| RouteOptions.Selection.Click | src/components/RouteOptions.tsx:187-191 | a click replaces the selection by its toggle |
| RouteOptions.Selection.LoadingChanged | src/components/RouteOptions.tsx:57-61 | a new search clears the selection; the end of loading keeps it |
| Page.DefaultValues | src/app/page.tsx:25-33 | empty addresses, two passengers, both flags on, tomorrow's date |
| Page.BoolText | src/app/page.tsx:118-122 | a flag is sent as "true" or "false", "true" exactly when it is set |
| Page.EpochSeconds | src/app/page.tsx:123 | the timestamp is the whole number of seconds at or before the instant |
| Page.BuildRouteQuery | src/app/page.tsx:114-124 | the query built by successive appends is the six pairs in order |
| Page.RouteQueryOrder | src/app/page.tsx:114-124 | the query has the keys in the fixed order, and each key reads back the value appended with it |
| Page.RouteQueryReadsBack | src/app/page.tsx:114-124 | the server reads back origin and destination verbatim, the count's text, the flags as "true"/"false" and the date as epoch seconds |
| Page.ErrorMessage | src/app/page.tsx:133 | the error message is the reply's error when present and non-empty, otherwise the fallback, and never empty |
| Page.FetchRouteData | src/app/page.tsx:99-137 | a rejected `fetch` or unparsable body fails with its own message; otherwise success exactly on an ok reply, whose body is the data, and a failure with the reply's error or the fallback |
| SearchForm.ValidateOrigin | src/components/SearchForm.tsx:30-32 | "From is required" exactly for the empty origin |
| SearchForm.ValidateDestination | src/components/SearchForm.tsx:59-61 | "To is required" exactly for the empty destination |
| SearchForm.ValidatePassengers | src/components/SearchForm.tsx:115-118 | "Passengers is required" exactly for 0 and NaN |
| SearchForm.PassengerBoundsNotChecked | src/components/SearchForm.tsx:115-132 | the input's min and max are not validated: -3 and 11 pass |
| SearchForm.NumberOf | src/components/SearchForm.tsx:129 | an emptied input reads as 0, and only a text starting with "-" reads as a negative number |
| SearchForm.EmptyPassengersRejected | src/components/SearchForm.tsx:115-129 | clearing the passenger input yields the required error |
| SearchForm.NumberOfToString | src/components/SearchForm.tsx:127-129 | Number reads back every value the input shows, NaN included |
| SearchForm.FieldInfo | src/components/SearchForm.tsx:206-210 | a field's touched errors show exactly when there is at least one, and they are shown as they are |
| SearchForm.Apply | src/components/SearchForm.tsx:100-175 | checkbox events set their flag to `checked`; passenger input is stored through Number |
| SearchForm.OneRequestPerSubmit | src/app/page.tsx:34-53 | the query never runs on its own: a session sends exactly as many requests as it has submits |
| SearchForm.SubmitSendsCurrentValues | src/app/page.tsx:34-53 | edits followed by one submit send one request, built from the edited values |
| SearchForm.DefaultsNeedAddresses | src/app/page.tsx:25-33 | the defaults fail the origin and destination validators and pass the passenger validator |
| EndToEnd.Served | src/app/api/route.ts:41-51 | the page sees ok exactly for a 200, an error field exactly otherwise, and the handler's body |
| EndToEnd.PassengersTextNonEmpty | src/app/page.tsx:117 | the passenger count's text is never empty, NaN included |
| EndToEnd.PageQueryBadRequest | src/app/api/route.ts:18-23 | a page query gets 400 exactly when origin or destination is empty; the passenger count never causes it |
| EndToEnd.PageValuesReachBooking | src/app/api/route.ts:31-38 | the booking URL for a page query carries the form's date as epoch seconds, its passenger count and its two flags |
| EndToEnd.PageSeesHandlerOutcome | src/app/page.tsx:129-136 | the page succeeds exactly on a 200 with the handler's body; a 400 shows the required-parameters message; any other failure shows the handler's error, or the fallback when that error is empty |

## Left out

- Network I/O: the geocoding and booking services are oracles in `Route.Env`, and `fetch` from the page is the function `Page.FetchRouteData` receives. Request headers (`x-rapidapi-key`, `x-rapidapi-host`, `x-api-key`) are reduced to the key each request carries.
- Reading `process.env` becomes the `Route.Config` record.
- Timing of `Promise.all`: the two geocodes are requested origin first, and which rejection wins when both fail is the boolean `originRejectsFirst`.
- URL parsing and percent-encoding: an endpoint that `new URL` would reject (a TypeError, answered with 500) is not modelled, and query strings are lists of pairs, not encoded text.
- A reply whose body is not JSON, making `response.json()` throw, is folded into the oracle returning a failure: in `Route.Env` for the upstream services, and in the `api` function `Page.FetchRouteData` receives for the page.
- Coordinates are the strings `String(lat)`/`String(lng)` produce; floating point is not modelled.
- Decimal.ParseInt: leading whitespace, radix prefixes such as "0x", and precision loss above 2^53 are not modelled; only an optional sign followed by digits is.
- SearchForm.NumberOf: fractions, exponents and surrounding whitespace are read as NaN, whereas `Number` accepts them; "" and optionally signed digit strings are read as exact integers, so the rounding of `Number` above 2^53 is not modelled.
- Decimal.NatToString, Decimal.IntToString and Decimal.Num.ToString: every integer is printed as plain digits. JavaScript prints numbers of magnitude 10^21 and above in exponent form ("1e+21") and rounds above 2^53, so for such a passenger count `parseInt` on the server reads back a different number; Decimal.ParseIntToString and EndToEnd.PageValuesReachBooking hold only for counts below 2^53.
- TimeUtils.ConvertMinutes: takes whole non-negative minutes; negative or fractional arguments are not modelled.
- RouteOptions.PriceFrom: requires at least one option; the TypeError that `reduce` without an initial value throws on an empty list is not modelled.
- RouteOptions.SortOptions: the comparator sort is modelled by an insertion sort. Array.prototype.sort is stable, so any engine's algorithm gives the same order, but the intermediate states of the array are not the engine's.
- The date picker: computing "tomorrow", `minDate`, and a `null` date passed to `onChange` (whose `getTime()` would throw) are not modelled; a date is its millisecond timestamp.
- Whether the form library withholds `onSubmit` while a validator reports an error is the library's behaviour; `SearchForm.Submitted` stands for a call of `onSubmit`.
- React Query's caching, loading flags and `retry: false` are not modelled beyond the request each submit sends.
- Rendering markup, images, icons, the collapsible API-response panel, the scroll-into-view effect and `console.log` are left out.
- src/app/layout.tsx and src/hooks/useRouteData.ts are not part of this model.
