/**
 * The duration formatter of src/utils/time.utils.ts: a number of minutes is
 * split into days, hours and minutes, each non-zero unit is rendered with its
 * count and a singular or plural noun, and the parts are joined with ", ".
 */
module TimeUtils {
  import opened Wrappers
  import opened Decimal

  const MinutesPerDay: nat := 1440
  const MinutesPerHour: nat := 60

  datatype Unit = Day | Hour | Minute {
    function Singular(): string {
      match this
      case Day => "day"
      case Hour => "hour"
      case Minute => "minute"
    }

    function Plural(): string {
      Singular() + "s"
    }

    function Minutes(): nat {
      match this
      case Day => MinutesPerDay
      case Hour => MinutesPerHour
      case Minute => 1
    }
  }

  datatype Duration = Duration(days: nat, hours: nat, mins: nat)

  function TotalMinutes(d: Duration): nat {
    d.days * MinutesPerDay + d.hours * MinutesPerHour + d.mins
  }

  /** The day/hour/minute split: it adds back up to `minutes` and hours and minutes are in range. */
  function Decompose(minutes: nat): (d: Duration)
    ensures TotalMinutes(d) == minutes
    ensures d.hours < 24 && d.mins < 60
  {
    var rest := minutes % MinutesPerDay;
    Duration(minutes / MinutesPerDay, rest / MinutesPerHour, rest % MinutesPerHour)
  }

  /** The split is unique: a duration with hours below 24 and minutes below 60 is the split of its total. */
  lemma DecomposeTotal(d: Duration)
    requires d.hours < 24 && d.mins < 60
    ensures Decompose(TotalMinutes(d)) == d
  {
    var within := d.hours * MinutesPerHour + d.mins;
    assert within < MinutesPerDay;
    assert TotalMinutes(d) == d.days * MinutesPerDay + within;
    assert TotalMinutes(d) / MinutesPerDay == d.days && TotalMinutes(d) % MinutesPerDay == within;
  }

  /** One unit as the source renders it (`days === 1 ? "1 day" : `${days} days``): "1 day" for one, "<n> days" otherwise. */
  function Phrase(count: nat, u: Unit): string {
    if count == 1 then "1 " + u.Singular() else NatToString(count) + " " + u.Plural()
  }

  /** The parts in the order days, hours, minutes, each present only when its count is non-zero. */
  function Parts(d: Duration): seq<string> {
    (if d.days > 0 then [Phrase(d.days, Day)] else [])
    + (if d.hours > 0 then [Phrase(d.hours, Hour)] else [])
    + (if d.mins > 0 then [Phrase(d.mins, Minute)] else [])
  }

  /** `Array.prototype.join` with separator ", ". */
  function Join(parts: seq<string>): (s: string)
    ensures s == "" <==> parts == [] || parts == [""]
  {
    if parts == [] then ""
    else if |parts| == 1 then parts[0]
    else parts[0] + ", " + Join(parts[1..])
  }

  /** What `convertMinutes(minutes)` returns. */
  function DurationText(minutes: nat): string {
    Join(Parts(Decompose(minutes)))
  }

  /** `convertMinutes`: the argument is reduced modulo a day in place and the parts are pushed one by one. */
  method ConvertMinutes(minutes: nat) returns (text: string)
    ensures text == DurationText(minutes)
  {
    var m := minutes;
    var days := m / MinutesPerDay;
    m := m % MinutesPerDay;
    var hours := m / MinutesPerHour;
    var mins := m % MinutesPerHour;

    var dayString := Phrase(days, Day);
    var hourString := Phrase(hours, Hour);
    var minuteString := Phrase(mins, Minute);

    var result: seq<string> := [];
    if days > 0 { result := result + [dayString]; }
    if hours > 0 { result := result + [hourString]; }
    if mins > 0 { result := result + [minuteString]; }
    assert result == Parts(Decompose(minutes));
    text := Join(result);
  }

  // ---------------------------------------------------------------------------
  // Reading a duration text back: the inverse that shows the rendering loses nothing.

  /** The index of the first `c` in `s`, or `|s|` when there is none. */
  function IndexOf(s: string, c: char): (i: nat)
    ensures i <= |s|
    ensures forall j :: 0 <= j < i ==> s[j] != c
    ensures i < |s| ==> s[i] == c
  {
    if s == [] || s[0] == c then 0 else 1 + IndexOf(s[1..], c)
  }

  /** Splits a text at every ", ". */
  function Split(s: string): seq<string>
    decreases |s|
  {
    var i := IndexOf(s, ',');
    if i == |s| then [s]
    else [s[..i]] + Split(s[if i + 2 <= |s| then i + 2 else |s|..])
  }

  function UnitOfNoun(noun: string): Option<Unit> {
    if noun == "day" || noun == "days" then Some(Day)
    else if noun == "hour" || noun == "hours" then Some(Hour)
    else if noun == "minute" || noun == "minutes" then Some(Minute)
    else None
  }

  /** Reads "<count> <noun>" back into a count and its unit. */
  function ParsePhrase(p: string): Option<(nat, Unit)> {
    var k := IndexOf(p, ' ');
    if k == |p| || k == 0 || !AllDigits(p[..k]) then None
    else match UnitOfNoun(p[k + 1..])
      case None => None
      case Some(u) => Some((ParseNat(p[..k]), u))
  }

  function ParsePhrases(parts: seq<string>): seq<Option<(nat, Unit)>> {
    if parts == [] then [] else [ParsePhrase(parts[0])] + ParsePhrases(parts[1..])
  }

  /** Reads a whole duration text back into its list of (count, unit) parts. */
  function ParseDuration(s: string): seq<Option<(nat, Unit)>> {
    if s == "" then [] else ParsePhrases(Split(s))
  }

  /** The (count, unit) pairs the formatter is meant to show: the non-zero units in order. */
  function NonZeroUnits(d: Duration): (r: seq<Option<(nat, Unit)>>)
    ensures |r| <= 3
    ensures Some((d.days, Day)) in r <==> d.days > 0
    ensures Some((d.hours, Hour)) in r <==> d.hours > 0
    ensures Some((d.mins, Minute)) in r <==> d.mins > 0
  {
    (if d.days > 0 then [Some((d.days, Day))] else [])
    + (if d.hours > 0 then [Some((d.hours, Hour))] else [])
    + (if d.mins > 0 then [Some((d.mins, Minute))] else [])
  }

  /** Adds up parsed parts back into minutes. */
  function Sum(units: seq<Option<(nat, Unit)>>): nat {
    if units == [] then 0 else ValueOf(units[0]) + Sum(units[1..])
  }

  function ValueOf(part: Option<(nat, Unit)>): nat {
    match part
    case None => 0
    case Some(cu) => cu.0 * cu.1.Minutes()
  }

  predicate NoComma(s: string) {
    forall j :: 0 <= j < |s| ==> s[j] != ','
  }

  lemma PhraseShape(count: nat, u: Unit)
    ensures Phrase(count, u) == NatToString(count) + " " + (if count == 1 then u.Singular() else u.Plural())
    ensures NoComma(Phrase(count, u))
  {
    var p := Phrase(count, u);
    assert NoComma(NatToString(count));
  }

  lemma {:induction false} IndexOfAppend(a: string, c: char, b: string)
    requires forall j :: 0 <= j < |a| ==> a[j] != c
    ensures IndexOf(a + [c] + b, c) == |a|
  {
    if a != [] {
      assert (a + [c] + b)[1..] == a[1..] + [c] + b;
      IndexOfAppend(a[1..], c, b);
    }
  }

  lemma SplitCons(p: string, rest: string)
    requires NoComma(p)
    ensures Split(p + ", " + rest) == [p] + Split(rest)
  {
    var s := p + ", " + rest;
    assert s == p + [','] + (" " + rest);
    IndexOfAppend(p, ',', " " + rest);
    assert s[..|p|] == p;
    assert s[|p| + 2..] == rest;
  }

  lemma SplitSingle(p: string)
    requires NoComma(p)
    ensures Split(p) == [p]
  {
  }

  /** Splitting the joined parts gives the parts back, since no part contains a comma. */
  lemma {:induction false} SplitJoin(parts: seq<string>)
    requires parts != []
    requires forall k :: 0 <= k < |parts| ==> NoComma(parts[k])
    ensures Split(Join(parts)) == parts
  {
    if |parts| == 1 {
      SplitSingle(parts[0]);
    } else {
      SplitCons(parts[0], Join(parts[1..]));
      SplitJoin(parts[1..]);
    }
  }

  lemma UnitOfNounOf(count: nat, u: Unit)
    ensures UnitOfNoun(if count == 1 then u.Singular() else u.Plural()) == Some(u)
  {
  }

  lemma ParsePhraseOfPhrase(count: nat, u: Unit)
    ensures ParsePhrase(Phrase(count, u)) == Some((count, u))
  {
    var digits := NatToString(count);
    var noun := if count == 1 then u.Singular() else u.Plural();
    PhraseShape(count, u);
    var p := Phrase(count, u);
    assert p == digits + [' '] + noun;
    assert forall j :: 0 <= j < |digits| ==> digits[j] != ' ';
    IndexOfAppend(digits, ' ', noun);
    assert IndexOf(p, ' ') == |digits|;
    assert p[..|digits|] == digits;
    assert p[|digits| + 1..] == noun;
    UnitOfNounOf(count, u);
    ParseNatToString(count);
  }

  lemma {:induction false} ParsePhrasesAppend(a: seq<string>, b: seq<string>)
    ensures ParsePhrases(a + b) == ParsePhrases(a) + ParsePhrases(b)
  {
    if a != [] {
      assert (a + b)[0] == a[0];
      assert (a + b)[1..] == a[1..] + b;
      ParsePhrasesAppend(a[1..], b);
    } else {
      assert a + b == b;
    }
  }

  /** A part that is present reads back as its count and unit. */
  lemma ParseOptionalPhrase(count: nat, u: Unit)
    ensures ParsePhrases(if count > 0 then [Phrase(count, u)] else [])
            == if count > 0 then [Some((count, u))] else []
  {
    if count > 0 {
      ParsePhraseOfPhrase(count, u);
    }
  }

  /** Parsing the parts one by one gives the non-zero units. */
  lemma ParsePartsOf(d: Duration)
    ensures ParsePhrases(Parts(d)) == NonZeroUnits(d)
  {
    var a := if d.days > 0 then [Phrase(d.days, Day)] else [];
    var b := if d.hours > 0 then [Phrase(d.hours, Hour)] else [];
    var c := if d.mins > 0 then [Phrase(d.mins, Minute)] else [];
    assert Parts(d) == a + b + c;
    ParseOptionalPhrase(d.days, Day);
    ParseOptionalPhrase(d.hours, Hour);
    ParseOptionalPhrase(d.mins, Minute);
    ParsePhrasesAppend(a + b, c);
    ParsePhrasesAppend(a, b);
  }

  /** No part of a duration text contains a comma, and none is empty. */
  lemma PartsPlain(d: Duration)
    ensures forall k :: 0 <= k < |Parts(d)| ==> NoComma(Parts(d)[k]) && Parts(d)[k] != ""
  {
    PhraseShape(d.days, Day);
    PhraseShape(d.hours, Hour);
    PhraseShape(d.mins, Minute);
  }

  /**
   * The round trip: reading back what `convertMinutes` printed yields exactly
   * the non-zero units of the split, in the order days, hours, minutes.
   */
  lemma DurationRoundTrip(minutes: nat)
    ensures ParseDuration(DurationText(minutes)) == NonZeroUnits(Decompose(minutes))
  {
    var d := Decompose(minutes);
    var parts := Parts(d);
    PartsPlain(d);
    ParsePartsOf(d);
    if parts != [] {
      SplitJoin(parts);
      assert Join(parts) != "";
    }
  }

  /** Hence the text determines the minutes: the parsed parts add back up to the input. */
  lemma DurationTextRecoversMinutes(minutes: nat)
    ensures Sum(ParseDuration(DurationText(minutes))) == minutes
  {
    DurationRoundTrip(minutes);
    SumNonZeroUnits(Decompose(minutes));
  }

  /** A present unit adds its count times its length in minutes. */
  lemma SumOptionalUnit(count: nat, u: Unit)
    ensures Sum(if count > 0 then [Some((count, u))] else []) == count * u.Minutes()
  {
    if count > 0 {
      assert [Some((count, u))][1..] == [];
    }
  }

  lemma SumNonZeroUnits(d: Duration)
    ensures Sum(NonZeroUnits(d)) == TotalMinutes(d)
  {
    var a := if d.days > 0 then [Some((d.days, Day))] else [];
    var b := if d.hours > 0 then [Some((d.hours, Hour))] else [];
    var c := if d.mins > 0 then [Some((d.mins, Minute))] else [];
    assert NonZeroUnits(d) == a + b + c;
    SumOptionalUnit(d.days, Day);
    SumOptionalUnit(d.hours, Hour);
    SumOptionalUnit(d.mins, Minute);
    SumAppend(a + b, c);
    SumAppend(a, b);
  }

  lemma {:induction false} SumAppend(a: seq<Option<(nat, Unit)>>, b: seq<Option<(nat, Unit)>>)
    ensures Sum(a + b) == Sum(a) + Sum(b)
  {
    if a != [] {
      assert (a + b)[0] == a[0];
      assert (a + b)[1..] == a[1..] + b;
      SumAppend(a[1..], b);
    } else {
      assert a + b == b;
    }
  }

  /** Two different minute counts never render the same text. */
  lemma DurationTextInjective(m1: nat, m2: nat)
    ensures DurationText(m1) == DurationText(m2) ==> m1 == m2
  {
    DurationTextRecoversMinutes(m1);
    DurationTextRecoversMinutes(m2);
  }

  /** The text is empty exactly when there are no minutes. */
  lemma DurationTextEmpty(minutes: nat)
    ensures DurationText(minutes) == "" <==> minutes == 0
  {
    var d := Decompose(minutes);
    if minutes > 0 {
      assert Parts(d) != [] && Parts(d)[0] != "";
    }
  }

  /** A unit is worded in the singular exactly when its count is one. */
  lemma PhraseSingular(count: nat, u: Unit)
    ensures Phrase(count, u) == "1 " + u.Singular() <==> count == 1
  {
    if count != 1 {
      var p := Phrase(count, u);
      assert p[|p| - 1] == 's';
      assert ("1 " + u.Singular())[|"1 " + u.Singular()| - 1] != 's';
    }
  }

  /** Worked examples: 1500 minutes and 61 minutes. */
  lemma WorkedExamples()
    ensures DurationText(1500) == "1 day, 1 hour"
    ensures DurationText(61) == "1 hour, 1 minute"
    ensures DurationText(0) == ""
  {
    assert Decompose(1500) == Duration(1, 1, 0);
    assert Decompose(61) == Duration(0, 1, 1);
  }
}
