/**
 * The search form of src/components/SearchForm.tsx: the `onChange` handlers
 * that write the form values, the three field validators, and the rule for
 * showing a field's errors. The page's `onSubmit` (src/app/page.tsx) is the
 * only thing that sends a query: the query is `enabled: false` and runs by
 * `refetch`.
 */
module SearchForm {
  import opened Wrappers
  import opened Decimal
  import opened Query
  import Page

  const OriginRequired := "From is required"
  const DestinationRequired := "To is required"
  const PassengersRequired := "Passengers is required"

  /** The origin validator: an error exactly for the empty string. */
  function ValidateOrigin(value: string): (r: Option<string>)
    ensures r.Some? <==> value == ""
    ensures r.Some? ==> r.value == OriginRequired
  {
    if value == "" then Some(OriginRequired) else None
  }

  /** The destination validator: an error exactly for the empty string. */
  function ValidateDestination(value: string): (r: Option<string>)
    ensures r.Some? <==> value == ""
    ensures r.Some? ==> r.value == DestinationRequired
  {
    if value == "" then Some(DestinationRequired) else None
  }

  /**
   * The passengers validator: an error exactly for 0 and NaN; the `min` and
   * `max` of the input are not checked, so negative counts and counts above
   * ten pass.
   */
  function ValidatePassengers(value: Num): (r: Option<string>)
    ensures r.Some? <==> value == NaN || value == Int(0)
    ensures r.Some? ==> r.value == PassengersRequired
  {
    if !value.Truthy() then Some(PassengersRequired) else None
  }

  lemma PassengerBoundsNotChecked()
    ensures ValidatePassengers(Int(-3)).None?
    ensures ValidatePassengers(Int(11)).None?
  {
  }

  /** `Number(text)` for the texts a number input holds: "" and optionally signed integers. */
  function NumberOf(text: string): (n: Num)
    ensures text == "" ==> n == Int(0)
    ensures n.Int? && n.value < 0 ==> |text| > 1 && text[0] == '-'
  {
    if text == "" then Int(0)
    else if text[0] == '-' && |text| > 1 && AllDigits(text[1..]) then Int(-(ParseNat(text[1..]) as int))
    else if AllDigits(text) then Int(ParseNat(text))
    else NaN
  }

  /** An emptied passenger input reads as 0 and is rejected. */
  lemma EmptyPassengersRejected()
    ensures ValidatePassengers(NumberOf("")) == Some(PassengersRequired)
  {
  }

  /** `Number` reads back every value `toString` wrote, NaN included. */
  lemma NumberOfToString(n: Num)
    ensures NumberOf(n.ToString()) == n
  {
    if n.Int? {
      var i := n.value;
      var m: nat := if i < 0 then -i else i;
      ParseNatToString(m);
      if i < 0 {
        assert n.ToString() == "-" + NatToString(m);
        assert n.ToString()[1..] == NatToString(m);
      } else {
        assert n.ToString()[0] != '-';
      }
    } else {
      assert !IsDigit('N');
      assert "NaN"[0] == 'N';
    }
  }

  /** `FieldInfo`: the touched errors are shown exactly when there is at least one. */
  function FieldInfo(touchedErrors: seq<string>): (shown: Option<seq<string>>)
    ensures shown.Some? <==> |touchedErrors| > 0
    ensures shown.Some? ==> shown.value == touchedErrors
  {
    if |touchedErrors| > 0 then Some(touchedErrors) else None
  }

  // ---------------------------------------------------------------------------
  // The form as a sequence of user events

  /** An input event on one field, or the form library calling `onSubmit`. */
  datatype FormEvent =
    | OriginInput(text: string)
    | DestinationInput(text: string)
    | PassengersInput(text: string)
    | IncludeStopsInput(checked: bool)
    | NonEnglishSpeakingInput(checked: bool)
    | DateInput(millis: int)
    | Submitted

  /** The `onChange` handlers: text as typed, the passenger text through `Number`, checkboxes as `checked`. */
  function Apply(v: Page.TripSearchParams, e: FormEvent): (w: Page.TripSearchParams)
    requires !e.Submitted?
    ensures e.IncludeStopsInput? ==> w == v.(includeStops := e.checked)
    ensures e.NonEnglishSpeakingInput? ==> w == v.(includeNonEnglishSpeaking := e.checked)
    ensures e.PassengersInput? ==> w == v.(passengersCount := NumberOf(e.text))
  {
    match e
    case OriginInput(t) => v.(origin := t)
    case DestinationInput(t) => v.(destination := t)
    case PassengersInput(t) => v.(passengersCount := NumberOf(t))
    case IncludeStopsInput(c) => v.(includeStops := c)
    case NonEnglishSpeakingInput(c) => v.(includeNonEnglishSpeaking := c)
    case DateInput(ms) => v.(dateMillis := ms)
  }

  /** The form values after a run of input events. */
  function ApplyAll(v: Page.TripSearchParams, events: seq<FormEvent>): Page.TripSearchParams
    requires forall k :: 0 <= k < |events| ==> !events[k].Submitted?
    decreases |events|
  {
    if events == [] then v else ApplyAll(Apply(v, events[0]), events[1..])
  }

  /** The queries sent during a session: one per submit, built from the values current at that moment. */
  function Session(v: Page.TripSearchParams, events: seq<FormEvent>): seq<Pairs>
    decreases |events|
  {
    if events == [] then []
    else if events[0].Submitted? then [Page.RouteQuery(v)] + Session(v, events[1..])
    else Session(Apply(v, events[0]), events[1..])
  }

  function Submits(events: seq<FormEvent>): nat {
    if events == [] then 0 else (if events[0].Submitted? then 1 else 0) + Submits(events[1..])
  }

  /** The query never runs on its own: exactly one request per submit. */
  lemma {:induction false} OneRequestPerSubmit(v: Page.TripSearchParams, events: seq<FormEvent>)
    ensures |Session(v, events)| == Submits(events)
    decreases |events|
  {
    if events != [] {
      if events[0].Submitted? {
        OneRequestPerSubmit(v, events[1..]);
      } else {
        OneRequestPerSubmit(Apply(v, events[0]), events[1..]);
      }
    }
  }

  /** Edits followed by a submit send exactly one query, built from the edited values. */
  lemma {:induction false} SubmitSendsCurrentValues(v: Page.TripSearchParams, edits: seq<FormEvent>)
    requires forall k :: 0 <= k < |edits| ==> !edits[k].Submitted?
    ensures Session(v, edits + [Submitted]) == [Page.RouteQuery(ApplyAll(v, edits))]
    decreases |edits|
  {
    if edits != [] {
      assert (edits + [Submitted])[0] == edits[0];
      assert (edits + [Submitted])[1..] == edits[1..] + [Submitted];
      SubmitSendsCurrentValues(Apply(v, edits[0]), edits[1..]);
    }
  }

  /** The defaults pass the passengers validator but not the origin and destination validators. */
  lemma DefaultsNeedAddresses(tomorrowMillis: int)
    ensures ValidateOrigin(Page.DefaultValues(tomorrowMillis).origin) == Some(OriginRequired)
    ensures ValidateDestination(Page.DefaultValues(tomorrowMillis).destination) == Some(DestinationRequired)
    ensures ValidatePassengers(Page.DefaultValues(tomorrowMillis).passengersCount) == None
  {
  }
}
